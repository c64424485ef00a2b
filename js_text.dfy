/** The JavaScript string and number conversions the dashboard uses:
    decimal rendering of integers, `String.prototype.padStart`,
    `String.prototype.split` on one character, `Number(string)`,
    `parseFloat`, `Number.prototype.toFixed` and `Number.prototype.toString`.
    JavaScript numbers are modelled as exact reals. */
module JsText {
  import opened Wrappers

  predicate IsDigit(c: char) {
    '0' <= c <= '9'
  }

  predicate IsDigits(s: string) {
    forall i | 0 <= i < |s| :: IsDigit(s[i])
  }

  function DigitChar(d: int): (c: char)
    requires 0 <= d < 10
    ensures IsDigit(c)
  {
    "0123456789"[d]
  }

  function DigitValue(c: char): (d: nat)
    requires IsDigit(c)
    ensures d < 10
  {
    (c as int - '0' as int) as nat
  }

  /** Decimal digits of `n` without leading zeros (`String(n)` for n >= 0). */
  function NatToString(n: nat): (s: string)
    ensures |s| >= 1 && IsDigits(s)
    ensures n < 10 <==> |s| == 1
  {
    if n < 10 then [DigitChar(n)] else NatToString(n / 10) + [DigitChar(n % 10)]
  }

  /** `String(n)` for an integer `n`. */
  function IntToString(n: int): (s: string)
    ensures |s| >= 1
    ensures n < 0 <==> s[0] == '-'
  {
    if n < 0 then "-" + NatToString(-n) else NatToString(n)
  }

  /** The value of a string of decimal digits; the empty string is 0. */
  function DigitsValue(s: string): nat
    requires IsDigits(s)
  {
    if s == [] then 0 else DigitsValue(s[..|s| - 1]) * 10 + DigitValue(s[|s| - 1])
  }

  lemma {:induction false} DigitsValueOfNatToString(n: nat)
    ensures DigitsValue(NatToString(n)) == n
  {
    if n >= 10 {
      var s := NatToString(n);
      assert s[..|s| - 1] == NatToString(n / 10);
      DigitsValueOfNatToString(n / 10);
    }
  }

  /** Leading zeros do not change the value of a digit string. */
  lemma {:induction false} DigitsValueLeadingZero(s: string)
    requires IsDigits(s)
    ensures DigitsValue("0" + s) == DigitsValue(s)
    decreases |s|
  {
    if s != [] {
      assert ("0" + s)[..|"0" + s| - 1] == "0" + s[..|s| - 1];
      DigitsValueLeadingZero(s[..|s| - 1]);
    }
  }

  /** `s.padStart(len, c)`. */
  function PadStart(s: string, len: nat, c: char): (r: string)
    ensures |r| == if |s| >= len then |s| else len
    ensures r[|r| - |s|..] == s
    ensures forall i | 0 <= i < |r| - |s| :: r[i] == c
  {
    if |s| >= len then s else seq(len - |s|, _ => c) + s
  }

  /** Two-digit rendering of a day or month number, as `String(n).padStart(2, "0")`. */
  function Pad2(n: nat): (r: string)
    ensures IsDigits(r) && |r| >= 2
    ensures n < 100 ==> |r| == 2
  {
    PadStart(NatToString(n), 2, '0')
  }

  lemma DigitsValueOfPad2(n: nat)
    ensures DigitsValue(Pad2(n)) == n
  {
    DigitsValueOfNatToString(n);
    if n < 10 {
      DigitsValueLeadingZero(NatToString(n));
    }
  }

  /** Index of the first occurrence of `c` in `s`. */
  function IndexOf(s: string, c: char): (i: nat)
    requires c in s
    ensures i < |s| && s[i] == c && c !in s[..i]
  {
    if s[0] == c then 0 else 1 + IndexOf(s[1..], c)
  }

  /** `s.split(sep)` for a one-character separator: always at least one part,
      and no part contains the separator. */
  function Split(s: string, sep: char): (parts: seq<string>)
    ensures |parts| >= 1
    ensures forall k | 0 <= k < |parts| :: sep !in parts[k]
    decreases |s|
  {
    if sep !in s then [s]
    else
      var i := IndexOf(s, sep);
      [s[..i]] + Split(s[i + 1..], sep)
  }

  /** `parts.join(sep)`. */
  function Join(parts: seq<string>, sep: char): string
    requires |parts| >= 1
  {
    if |parts| == 1 then parts[0] else parts[0] + [sep] + Join(parts[1..], sep)
  }

  /** The first separator in `a + [sep] + rest` is the one after `a` when `a` has none. */
  lemma {:induction false} IndexOfAfter(a: string, sep: char, rest: string)
    requires sep !in a
    ensures sep in a + [sep] + rest && IndexOf(a + [sep] + rest, sep) == |a|
    decreases |a|
  {
    var s := a + [sep] + rest;
    assert s[|a|] == sep;
    if a != [] {
      assert s[1..] == a[1..] + [sep] + rest;
      IndexOfAfter(a[1..], sep, rest);
    }
  }

  /** Split undoes Join when no part holds the separator. */
  lemma {:induction false} SplitJoin(parts: seq<string>, sep: char)
    requires |parts| >= 1
    requires forall k | 0 <= k < |parts| :: sep !in parts[k]
    ensures Split(Join(parts, sep), sep) == parts
  {
    if |parts| == 1 {
      assert sep !in parts[0];
    } else {
      var head, tail := parts[0], parts[1..];
      var rest := Join(tail, sep);
      var s := head + [sep] + rest;
      assert Join(parts, sep) == s;
      assert sep !in head;
      IndexOfAfter(head, sep, rest);
      assert s[..|head|] == head;
      assert s[|head| + 1..] == rest;
      assert Split(s, sep) == [head] + Split(rest, sep);
      SplitJoin(tail, sep);
      assert parts == [head] + tail;
    }
  }

  /** Join undoes Split: splitting loses nothing. */
  lemma {:induction false} JoinSplit(s: string, sep: char)
    ensures Join(Split(s, sep), sep) == s
    decreases |s|
  {
    if sep in s {
      var i := IndexOf(s, sep);
      var ps := Split(s[i + 1..], sep);
      assert Split(s, sep) == [s[..i]] + ps;
      assert ([s[..i]] + ps)[1..] == ps;
      JoinSplit(s[i + 1..], sep);
      assert Join(Split(s, sep), sep) == s[..i] + [sep] + Join(ps, sep);
      assert s == s[..i] + [sep] + s[i + 1..];
    }
  }

  /** `Number(s)` for strings that are empty or an optionally signed run of
      decimal digits; every other string is NaN here (None). */
  function JsNumber(s: string): (r: Option<int>)
    ensures IsDigits(s) ==> r == Some(DigitsValue(s))
  {
    if s == "" then Some(0)
    else if IsDigits(s) then Some(DigitsValue(s))
    else if |s| > 1 && s[0] == '-' && IsDigits(s[1..]) then Some(0 - DigitsValue(s[1..]) as int)
    else if |s| > 1 && s[0] == '+' && IsDigits(s[1..]) then Some(DigitsValue(s[1..]))
    else None
  }

  /** `x.toFixed(f)`: round to the nearest multiple of 10^-f (ties away from zero),
      a leading `-` for negative x, and exactly `f` digits after the point. */
  function ToFixed(x: real, f: nat): (r: string)
    ensures f > 0 ==> |r| >= f + 2 && r[|r| - f - 1] == '.'
    ensures f > 0 ==> IsDigits(r[|r| - f..])
    ensures forall i | 0 <= i < |r| :: IsDigit(r[i]) || r[i] == '.' || r[i] == '-'
    decreases if x < 0.0 then 1 else 0
  {
    if x < 0.0 then "-" + ToFixed(-x, f) else FixedDigits(x, f)
  }

  function FixedDigits(x: real, f: nat): (r: string)
    requires x >= 0.0
    ensures f > 0 ==> |r| >= f + 2 && r[|r| - f - 1] == '.'
    ensures f > 0 ==> IsDigits(r[..|r| - f - 1]) && IsDigits(r[|r| - f..])
    ensures f == 0 ==> IsDigits(r) && |r| >= 1
    ensures forall i | 0 <= i < |r| :: IsDigit(r[i]) || r[i] == '.'
  {
    PointDigits((Scale(x, f) + 0.5).Floor, f)
  }

  /** x * 10^f, one factor of ten at a time. */
  function Scale(x: real, f: nat): (r: real)
    ensures x >= 0.0 ==> r >= 0.0
    ensures x == 0.0 ==> r == 0.0
  {
    if f == 0 then x else 10.0 * Scale(x, f - 1)
  }

  /** r / 10^f, one division by ten at a time. */
  function Shift(r: real, f: nat): real {
    if f == 0 then r else Shift(r, f - 1) / 10.0
  }

  /** The decimal digits of `n` with a point written `f` places from the right,
      zero-padded so that at least one digit precedes the point. */
  function PointDigits(n: nat, f: nat): (r: string)
    ensures f > 0 ==> |r| >= f + 2 && r[|r| - f - 1] == '.'
    ensures f > 0 ==> IsDigits(r[..|r| - f - 1]) && IsDigits(r[|r| - f..])
    ensures f == 0 ==> IsDigits(r) && |r| >= 1
    ensures forall i | 0 <= i < |r| :: IsDigit(r[i]) || r[i] == '.'
  {
    var m := NatToString(n);
    if f == 0 then m
    else
      var padded := PadDigits(m, f + 1);
      padded[..|padded| - f] + "." + padded[|padded| - f..]
  }

  /** `m` with zeros in front up to `len` digits; the value is unchanged. */
  function PadDigits(m: string, len: nat): (r: string)
    requires IsDigits(m)
    ensures |r| >= len && |r| >= |m| && IsDigits(r)
    ensures DigitsValue(r) == DigitsValue(m)
    decreases len - |m|
  {
    if |m| < len then
      DigitsValueLeadingZero(m);
      PadDigits("0" + m, len)
    else m
  }

  lemma ToFixedZero()
    ensures ToFixed(0.0, 0) == "0"
    ensures ToFixed(0.0, 1) == "0.0"
    ensures ToFixed(0.0, 2) == "0.00"
  {
    ZeroDigits(0);
    ZeroDigits(1);
    ZeroDigits(2);
    ZeroPointDigits1();
    ZeroPointDigits2();
  }

  /** Zero is written as the digits of 0 whatever the number of places. */
  lemma {:induction false} ZeroDigits(f: nat)
    ensures ToFixed(0.0, f) == PointDigits(0, f)
    ensures PointDigits(0, 0) == "0"
  {
    assert (0.0 + 0.5).Floor == 0;
    assert NatToString(0) == "0";
  }

  lemma ZeroPointDigits1()
    ensures PointDigits(0, 1) == "0.0"
  {
    assert NatToString(0) == "0";
    var padded := PadDigits("0", 2);
    assert padded == "00" by {
      assert "0" + "0" == "00";
    }
  }

  lemma ZeroPointDigits2()
    ensures PointDigits(0, 2) == "0.00"
  {
    assert NatToString(0) == "0";
    var padded := PadDigits("0", 3);
    assert padded == "000" by {
      assert "0" + "0" == "00" && "0" + "00" == "000";
      assert PadDigits("00", 3) == "000";
    }
  }

  /** Up to `k` further decimal digits of a fraction, stopping once it is exhausted. */
  function FractionDigits(frac: real, k: nat): (r: string)
    requires 0.0 <= frac < 1.0
    ensures IsDigits(r)
    decreases k
  {
    if frac == 0.0 || k == 0 then ""
    else
      var t := frac * 10.0;
      var d := t.Floor;
      [DigitChar(d)] + FractionDigits(t - d as real, k - 1)
  }

  /** `String(x)`: integers as plain decimals; other values with their
      fraction written out (to at most 20 places). */
  function NumberToString(x: real): (r: string)
    ensures |r| >= 1
    ensures forall i | 0 <= i < |r| :: IsDigit(r[i]) || r[i] == '.' || r[i] == '-'
  {
    if x < 0.0 then "-" + NonNegativeToString(-x) else NonNegativeToString(x)
  }

  function NonNegativeToString(x: real): (r: string)
    requires x >= 0.0
    ensures |r| >= 1
    ensures forall i | 0 <= i < |r| :: IsDigit(r[i]) || r[i] == '.'
  {
    var i := x.Floor;
    var frac := x - i as real;
    if frac == 0.0 then NatToString(i) else NatToString(i) + "." + FractionDigits(frac, 20)
  }

  lemma NumberToStringOfInt(n: int)
    ensures NumberToString(n as real) == IntToString(n)
  {
    if n < 0 {
      NegativeToString(n as real, -n);
    } else {
      NonNegativeToStringOfNat(n);
    }
  }

  lemma NegativeToString(x: real, m: nat)
    requires x == -(m as real) && m > 0
    ensures NumberToString(x) == "-" + NatToString(m)
  {
    var y := -x;
    assert y == m as real;
    NonNegativeToStringOfNat(m);
    assert NonNegativeToString(y) == NatToString(m);
  }

  lemma NonNegativeToStringOfNat(m: nat)
    ensures NonNegativeToString(m as real) == NatToString(m)
  {
    assert (m as real).Floor == m;
  }

  /** Number of leading decimal digits of `s`. */
  function LeadingDigits(s: string): (k: nat)
    ensures k <= |s| && IsDigits(s[..k])
    ensures k < |s| ==> !IsDigit(s[k])
  {
    if s == [] || !IsDigit(s[0]) then 0
    else
      var k := 1 + LeadingDigits(s[1..]);
      assert s[..k] == [s[0]] + s[1..][..k - 1];
      k
  }

  /** `parseFloat(s)` for the longest prefix made of an optional sign, digits and
      an optional fraction; None when no digit starts the string (NaN). */
  function ParseFloat(s: string): (r: Option<real>)
    ensures r.Some? ==> |s| > 0
  {
    if |s| > 0 && s[0] == '-' then Negated(ParseDecimal(s[1..]))
    else if |s| > 0 && s[0] == '+' then ParseDecimal(s[1..])
    else ParseDecimal(s)
  }

  function Negated(r: Option<real>): Option<real> {
    match r
    case None => None
    case Some(v) => Some(-v)
  }

  /** The unsigned part: the longest run of digits, then a point and the digits
      after it; None when neither a digit nor a point followed by a digit starts it. */
  function ParseDecimal(body: string): (r: Option<real>)
    ensures r.Some? ==> |body| > 0
  {
    var k := LeadingDigits(body);
    var rest := body[k..];
    var frac := if |rest| > 0 && rest[0] == '.' then rest[1..][..LeadingDigits(rest[1..])] else "";
    if k == 0 && frac == "" then None
    else Some(Magnitude(body[..k], frac))
  }

  /** The number written `<whole>.<frac>`: the digits read without the point,
      divided by 10 for each digit after it. */
  function Magnitude(whole: string, frac: string): real
    requires IsDigits(whole) && IsDigits(frac)
  {
    DigitsConcat(whole, frac);
    Shift(DigitsValue(whole + frac) as real, |frac|)
  }

  lemma DigitsConcat(a: string, b: string)
    requires IsDigits(a) && IsDigits(b)
    ensures IsDigits(a + b)
  {
    forall i | 0 <= i < |a + b|
      ensures IsDigit((a + b)[i])
    {
      if i < |a| { assert (a + b)[i] == a[i]; } else { assert (a + b)[i] == b[i - |a|]; }
    }
  }

  lemma {:induction false} LeadingDigitsOfDigits(s: string)
    requires IsDigits(s)
    ensures LeadingDigits(s) == |s|
    decreases |s|
  {
    if s != [] {
      LeadingDigitsOfDigits(s[1..]);
    }
  }

  /** parseFloat reads back the decimal rendering of a natural number. */
  lemma ParseFloatOfNatToString(n: nat)
    ensures ParseFloat(NatToString(n)) == Some(n as real)
  {
    ParseFloatOfDigits(NatToString(n));
    DigitsValueOfNatToString(n);
  }

  /** parseFloat of a non-empty digit string is the number it spells. */
  lemma {:induction false} ParseFloatOfDigits(s: string)
    requires IsDigits(s) && |s| > 0
    ensures ParseFloat(s) == Some(DigitsValue(s) as real)
  {
    LeadingDigitsOfDigits(s);
    assert s[0] != '-' && s[0] != '+' by { assert IsDigit(s[0]); }
    assert s[..|s|] == s && s[|s|..] == [] && s + [] == s;
    assert ParseFloat(s) == Some(Magnitude(s, ""));
  }

  /** The digits of a run end where a non-digit begins. */
  lemma {:induction false} LeadingDigitsStops(a: string, rest: string)
    requires IsDigits(a) && |rest| > 0 && !IsDigit(rest[0])
    ensures LeadingDigits(a + rest) == |a|
    decreases |a|
  {
    var s := a + rest;
    if a == [] {
      assert s == rest;
    } else {
      assert s[0] == a[0] && IsDigit(a[0]);
      assert s[1..] == a[1..] + rest;
      assert IsDigits(a[1..]);
      LeadingDigitsStops(a[1..], rest);
      assert LeadingDigits(s) == 1 + LeadingDigits(s[1..]);
    }
  }

  /** parseFloat of `<digits>.<digits>`. */
  lemma {:induction false} PointedValue(a: string, b: string)
    requires IsDigits(a) && IsDigits(b) && |a| > 0
    ensures ParseFloat(a + "." + b) == Some(Magnitude(a, b))
  {
    var s := a + "." + b;
    assert s == a + ("." + b);
    LeadingDigitsStops(a, "." + b);
    assert s[..|a|] == a && s[|a| + 1..] == b;
    ParseFloatPointed(s, |a|);
  }

  lemma {:induction false} ParseFloatPointed(s: string, k: nat)
    requires 0 < k < |s| && IsDigit(s[0]) && LeadingDigits(s) == k && s[k] == '.'
    requires IsDigits(s[k + 1..])
    ensures ParseFloat(s) == Some(Magnitude(s[..k], s[k + 1..]))
  {
    FractionAfterPoint(s[k..]);
    assert s[k..][1..] == s[k + 1..];
  }

  lemma {:induction false} FractionAfterPoint(rest: string)
    requires |rest| > 0 && rest[0] == '.' && IsDigits(rest[1..])
    ensures rest[1..][..LeadingDigits(rest[1..])] == rest[1..]
  {
    LeadingDigitsOfDigits(rest[1..]);
  }

  /** The digits PointDigits writes stand for n / 10^f. */
  lemma {:induction false} PointDigitsValue(n: nat, f: nat)
    ensures |PointDigits(n, f)| > 0 && IsDigit(PointDigits(n, f)[0])
    ensures ParseFloat(PointDigits(n, f)) == Some(Shift(n as real, f))
  {
    if f == 0 {
      var m := NatToString(n);
      ParseFloatOfNatToString(n);
      assert IsDigit(m[0]);
      assert PointDigits(n, 0) == m;
    } else {
      PointedDigitsValue(n, f);
    }
  }

  lemma {:induction false} PointedDigitsValue(n: nat, f: nat)
    requires f > 0
    ensures |PointDigits(n, f)| > 0 && IsDigit(PointDigits(n, f)[0])
    ensures ParseFloat(PointDigits(n, f)) == Some(Shift(n as real, f))
  {
    var a, b := PointedParts(n, f);
    PointedValue(a, b);
  }

  /** The two digit runs PointDigits writes on either side of the point. */
  lemma {:induction false} PointedParts(n: nat, f: nat) returns (a: string, b: string)
    requires f > 0
    ensures IsDigits(a) && IsDigits(b) && |a| > 0 && |b| == f
    ensures PointDigits(n, f) == a + "." + b
    ensures Magnitude(a, b) == Shift(n as real, f)
  {
    var padded := PadDigits(NatToString(n), f + 1);
    DigitsValueOfNatToString(n);
    a, b := padded[..|padded| - f], padded[|padded| - f..];
    SplitMagnitude(padded, f);
  }

  /** Reading a digit string with a point `f` places from the right divides it by 10^f. */
  lemma {:induction false} SplitMagnitude(s: string, f: nat)
    requires IsDigits(s) && |s| > f
    ensures IsDigits(s[..|s| - f]) && IsDigits(s[|s| - f..])
    ensures Magnitude(s[..|s| - f], s[|s| - f..]) == Shift(DigitsValue(s) as real, f)
  {
    assert s[..|s| - f] + s[|s| - f..] == s;
  }

  /** Scaling r / 10^f back by 10^f gives r. */
  lemma {:induction false} ScaleShift(r: real, f: nat)
    ensures Scale(Shift(r, f), f) == r
  {
    if f > 0 {
      ScaleShift(r, f - 1);
      ScaleTenth(Shift(r, f - 1), f);
    }
  }

  /** Scaling a tenth of x gives a tenth of scaling x. */
  lemma {:induction false} ScaleTenth(x: real, f: nat)
    ensures Scale(x / 10.0, f) == Scale(x, f) / 10.0
  {
    if f > 0 {
      ScaleTenth(x, f - 1);
    }
  }

  /** Scaling commutes with negation. */
  lemma {:induction false} ScaleOpposite(u: real, v: real, f: nat)
    requires u == -v
    ensures Scale(u, f) == -Scale(v, f)
  {
    if f > 0 {
      ScaleOpposite(u, v, f - 1);
    }
  }

  /** A leading minus negates what parseFloat reads from a text starting with a digit. */
  lemma {:induction false} ParseNegated(s: string)
    requires |s| > 0 && IsDigit(s[0])
    ensures ParseFloat("-" + s).Some? == ParseFloat(s).Some?
    ensures ParseFloat(s).Some? ==> ParseFloat("-" + s) == Some(-ParseFloat(s).value)
  {
    assert ("-" + s)[0] == '-' && ("-" + s)[1..] == s;
    assert ParseFloat(s) == ParseDecimal(s);
  }

  /** `x.toFixed(f)` reads back as n / 10^f for the integer n nearest to x * 10^f,
      ties rounded away from zero. */
  lemma {:induction false} ToFixedValue(x: real, f: nat) returns (n: int)
    ensures ParseFloat(ToFixed(x, f)) == Some(Shift(n as real, f))
    ensures Scale(ParseFloat(ToFixed(x, f)).value, f) == n as real
    ensures x >= 0.0 ==> n as real - 0.5 <= Scale(x, f) < n as real + 0.5
    ensures x < 0.0 ==> n as real - 0.5 < Scale(x, f) <= n as real + 0.5
  {
    if x < 0.0 {
      n := NegativeFixedValue(x, f);
    } else {
      n := FixedDigitsValue(x, f);
      NonNegativeFixedShape(x, f);
    }
    ScaleShift(n as real, f);
  }

  lemma {:induction false} NegativeFixedValue(x: real, f: nat) returns (n: int)
    requires x < 0.0
    ensures ParseFloat(ToFixed(x, f)) == Some(Shift(n as real, f))
    ensures n as real - 0.5 < Scale(x, f) <= n as real + 0.5
  {
    var y := -x;
    NegativeFixedShape(x, y, f);
    var m := FixedDigitsValue(y, f);
    n := -(m as int);
    ShiftOpposite(n as real, m as real, f);
    NegatedText(FixedDigits(y, f), Shift(m as real, f), Shift(n as real, f));
    ScaleOpposite(x, y, f);
  }

  /** When x * 10^f is already a whole number n, toFixed writes the digits of n. */
  lemma FixedOfWhole(x: real, f: nat, n: nat)
    requires x >= 0.0 && Scale(x, f) == n as real
    ensures ToFixed(x, f) == PointDigits(n, f)
  {
    assert (n as real + 0.5).Floor == n;
  }

  lemma NonNegativeFixedShape(x: real, f: nat)
    requires x >= 0.0
    ensures ToFixed(x, f) == FixedDigits(x, f)
  {
  }

  /** For negative x, toFixed writes a minus in front of the digits of -x. */
  lemma NegativeFixedShape(x: real, y: real, f: nat)
    requires x < 0.0 && y == -x
    ensures ToFixed(x, f) == "-" + FixedDigits(y, f)
  {
  }

  /** A minus in front of a text that starts with a digit negates what parseFloat reads. */
  lemma NegatedText(s: string, w: real, v: real)
    requires |s| > 0 && IsDigit(s[0]) && ParseFloat(s) == Some(w) && v == -w
    ensures ParseFloat("-" + s) == Some(v)
  {
    ParseNegated(s);
  }

  /** Shifting commutes with negation. */
  lemma {:induction false} ShiftOpposite(u: real, v: real, f: nat)
    requires u == -v
    ensures Shift(u, f) == -Shift(v, f)
  {
    if f > 0 {
      ShiftOpposite(u, v, f - 1);
    }
  }

  /** The digits of y.toFixed(f), for y >= 0, read back as n / 10^f, where n is
      y * 10^f rounded half up. */
  lemma {:induction false} FixedDigitsValue(y: real, f: nat) returns (n: nat)
    requires y >= 0.0
    ensures |FixedDigits(y, f)| > 0 && IsDigit(FixedDigits(y, f)[0])
    ensures ParseFloat(FixedDigits(y, f)) == Some(Shift(n as real, f))
    ensures n as real - 0.5 <= Scale(y, f) < n as real + 0.5
  {
    n := (Scale(y, f) + 0.5).Floor;
    assert FixedDigits(y, f) == PointDigits(n, f);
    PointDigitsValue(n, f);
  }
}
