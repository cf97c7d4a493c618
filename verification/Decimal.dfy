/** Exact decimal amounts, src/decimal.rs: a text to an integer scaled by 10^5 in 128 bits, or a refusal. */
module Decimal {
  import opened Options

  const SCALE: nat := 5
  const INT128_MAX: int := 0x7FFF_FFFF_FFFF_FFFF_FFFF_FFFF_FFFF_FFFF
  /** 10^38 - 1, the largest value the column holds. */
  const MAX_SCALED: int := 99_999_999_999_999_999_999_999_999_999_999_999_999

  datatype Failure = Empty | NotANumber | TooPrecise | TooLarge
  datatype Result<T> = Ok(value: T) | Err(failure: Failure)

  // ── texts ──

  predicate IsSpace(c: char) {
    var u := c as int;
    || 0x09 <= u <= 0x0D || u == 0x20 || u == 0x85 || u == 0xA0 || u == 0x1680 || 0x2000 <= u <= 0x200A
    || u == 0x2028 || u == 0x2029 || u == 0x202F || u == 0x205F || u == 0x3000
  }

  /** The characters with Unicode's White_Space property. */
  lemma SpacesAre(c: char)
    ensures IsSpace(c) <==> c as int in {0x09, 0x0A, 0x0B, 0x0C, 0x0D, 0x20, 0x85, 0xA0, 0x1680, 0x2000, 0x2001, 0x2002,
      0x2003, 0x2004, 0x2005, 0x2006, 0x2007, 0x2008, 0x2009, 0x200A, 0x2028, 0x2029, 0x202F, 0x205F, 0x3000}
  {
  }

  function TrimStart(s: string): string {
    if s != "" && IsSpace(s[0]) then TrimStart(s[1..]) else s
  }

  function TrimEnd(s: string): string {
    if s != "" && IsSpace(s[|s| - 1]) then TrimEnd(s[..|s| - 1]) else s
  }

  function Trim(s: string): string { TrimEnd(TrimStart(s)) }

  ghost predicate Blank(s: string) { forall c | c in s :: IsSpace(c) }

  lemma {:induction false} TrimStartIsBlank(s: string)
    ensures TrimStart(s) == "" <==> Blank(s)
  {
    if s != "" {
      TrimStartIsBlank(s[1..]);
      assert s == [s[0]] + s[1..];
    }
  }

  lemma {:induction false} TrimEndIsBlank(s: string)
    ensures TrimEnd(s) == "" <==> Blank(s)
  {
    if s != "" {
      TrimEndIsBlank(s[..|s| - 1]);
      assert s == s[..|s| - 1] + [s[|s| - 1]];
    }
  }

  /** Nothing is left of a text exactly where it is blanks. */
  lemma TrimIsBlank(s: string)
    ensures Trim(s) == "" <==> Blank(s)
  {
    TrimEndIsBlank(TrimStart(s));
    TrimStartIsBlank(s);
    StartIsNoBlank(s);
  }

  lemma {:induction false} StartIsNoBlank(s: string)
    ensures TrimStart(s) != "" ==> !IsSpace(TrimStart(s)[0])
  {
    if s != "" && IsSpace(s[0]) { StartIsNoBlank(s[1..]); }
  }

  predicate IsDigit(c: char) { '0' <= c <= '9' }

  ghost predicate Digits(s: string) { forall i | 0 <= i < |s| :: IsDigit(s[i]) }

  function DigitValue(c: char): (d: nat)
    requires IsDigit(c)
    ensures d <= 9
  {
    c as int - '0' as int
  }

  /** The number some decimal digits spell. */
  function Number(s: string): nat
    requires Digits(s)
  {
    if s == "" then 0 else 10 * Number(s[..|s| - 1]) + DigitValue(s[|s| - 1])
  }

  function Power10(n: nat): (r: nat)
    ensures r > 0
  {
    if n == 0 then 1 else 10 * Power10(n - 1)
  }

  function TrimZeros(s: string): (r: string)
    ensures |r| <= |s| && r == s[..|r|]
    ensures r != "" ==> r[|r| - 1] != '0'
  {
    if s != "" && s[|s| - 1] == '0' then TrimZeros(s[..|s| - 1]) else s
  }

  /** How many bytes a text takes in UTF-8: the length the fraction is measured by. */
  function ByteLength(s: string): (r: nat)
    ensures r >= |s|
  {
    if s == "" then 0
    else
      var u := s[|s| - 1] as int;
      ByteLength(s[..|s| - 1]) + if u < 0x80 then 1 else if u < 0x800 then 2 else if u < 0x1_0000 then 3 else 4
  }

  lemma {:induction false} DigitsAreBytes(s: string)
    requires Digits(s)
    ensures ByteLength(s) == |s|
  {
    if s != "" { DigitsAreBytes(s[..|s| - 1]); }
  }

  /** Where the first point stands, or the end. */
  function PointAt(s: string): (k: nat)
    ensures k <= |s| && '.' !in s[..k] && (k < |s| ==> s[k] == '.')
  {
    if s == "" then 0
    else if s[0] == '.' then 0
    else
      var k := PointAt(s[1..]) + 1;
      assert s[..k] == [s[0]] + s[1..][..k - 1];
      k
  }

  // ── what a text means ──

  /** A sign, the digits before the point and those after it. */
  datatype Amount = Amount(negative: bool, whole: string, fraction: string)

  function Unsigned(s: string): string { if s != "" && (s[0] == '-' || s[0] == '+') then s[1..] else s }

  function Whole(s: string): string { s[..PointAt(s)] }
  function Fraction(s: string): string { if PointAt(s) < |s| then s[PointAt(s) + 1..] else "" }

  /** The amount a text states, where it states one. */
  ghost function Stated(text: string): Option<Amount> {
    var s := Trim(text);
    var whole, fraction := Whole(Unsigned(s)), Fraction(Unsigned(s));
    if whole + fraction != "" && Digits(whole) && Digits(fraction) then Some(Amount(s[0] == '-', whole, fraction))
    else None
  }

  /** An amount's digits as one number: its value times 10^|fraction|. */
  ghost function Mantissa(a: Amount): nat
    requires Digits(a.whole) && Digits(a.fraction)
  {
    Number(a.whole + a.fraction)
  }

  function Sign(a: Amount): int { if a.negative then -1 else 1 }

  /** The scaled integer is the exact value of the amount, in a column that can hold it. */
  ghost predicate Exactly(a: Amount, scaled: int)
    requires Digits(a.whole) && Digits(a.fraction)
  {
    && -MAX_SCALED <= scaled <= MAX_SCALED
    && scaled * Power10(|a.fraction|) == Sign(a) * Mantissa(a) * Power10(SCALE)
  }

  // ── arithmetic ──

  lemma {:induction false} PowerSum(m: nat, n: nat)
    ensures Power10(m + n) == Power10(m) * Power10(n)
  {
    if m > 0 { PowerSum(m - 1, n); }
  }

  lemma NumberAppend(s: string, c: char)
    requires Digits(s) && IsDigit(c)
    ensures Digits(s + [c]) && Number(s + [c]) == 10 * Number(s) + DigitValue(c)
  {
    assert (s + [c])[..|s|] == s;
  }

  /** Dropping the trailing zeros divides the number by as many tens. */
  lemma {:induction false} NumberTrimmed(whole: string, fraction: string)
    requires Digits(whole) && Digits(fraction)
    ensures Digits(TrimZeros(fraction))
    ensures Number(whole + fraction)
      == Number(whole + TrimZeros(fraction)) * Power10(|fraction| - |TrimZeros(fraction)|)
  {
    if fraction != "" && fraction[|fraction| - 1] == '0' {
      var front := fraction[..|fraction| - 1];
      NumberTrimmed(whole, front);
      assert whole + fraction == (whole + front) + ['0'];
      NumberAppend(whole + front, '0');
      TimesTen(Number(whole + TrimZeros(front)), |front| - |TrimZeros(front)|);
    } else {
      assert TrimZeros(fraction) == fraction;
    }
  }

  lemma TimesTen(n: nat, k: nat)
    ensures n * Power10(k + 1) == 10 * (n * Power10(k))
    ensures n * Power10(0) == n
  {
  }

  lemma {:induction false} NumberGrows(s: string, k: nat)
    requires Digits(s) && k <= |s|
    ensures Digits(s[..k]) && Number(s[..k]) <= Number(s)
  {
    if k < |s| {
      NumberGrows(s[..|s| - 1], k);
      assert s[..|s| - 1][..k] == s[..k];
    } else {
      assert s[..k] == s;
    }
  }

  lemma Regroup(n: nat, a: nat, b: nat)
    ensures n * Power10(a) * Power10(b) == n * Power10(a + b)
  {
    PowerSum(a, b);
    assert n * Power10(a) * Power10(b) == n * (Power10(a) * Power10(b));
  }

  lemma NonZero(d: int, p: int)
    requires p > 0 && d != 0
    ensures d * p != 0
  {
    if d > 0 {
      AtLeast(d, p);
    } else {
      AtLeast(-d, p);
      assert (-d) * p == -(d * p);
    }
  }

  lemma Cancel(x: int, y: int, p: int)
    requires p > 0 && x * p == y * p
    ensures x == y
  {
    assert (x - y) * p == 0;
    if x != y { NonZero(x - y, p); }
  }

  lemma Assoc(x: int, y: int, z: int)
    ensures (x * y) * z == x * (y * z)
  {
  }

  /** A number that is a whole multiple of a power of ten ends in a zero. */
  lemma EndsInZero(scaled: int, n: nat, a: nat, b: nat)
    requires a > 0 && scaled * Power10(a + b) == n * Power10(b)
    ensures n % 10 == 0
  {
    PowerSum(a, b);
    Assoc(scaled, Power10(a), Power10(b));
    Cancel(scaled * Power10(a), n, Power10(b));
    Assoc(scaled, Power10(a - 1), 10);
  }

  /** With the fraction at most five digits long, left-aligning it gives the exact value. */
  lemma AlignedIsExact(whole: string, fraction: string)
    requires Digits(whole) && Digits(fraction) && |TrimZeros(fraction)| <= SCALE
    ensures Digits(whole + TrimZeros(fraction))
    ensures Number(whole + TrimZeros(fraction)) * Power10(SCALE - |TrimZeros(fraction)|) * Power10(|fraction|)
      == Number(whole + fraction) * Power10(SCALE)
  {
    var t := |TrimZeros(fraction)|;
    var n := Number(whole + TrimZeros(fraction));
    NumberTrimmed(whole, fraction);
    Regroup(n, SCALE - t, |fraction|);
    Regroup(n, |fraction| - t, SCALE);
  }

  /** More than five digits that count are no whole number of hundred-thousandths. */
  lemma TooPreciseForTheScale(whole: string, fraction: string, scaled: int)
    requires Digits(whole) && Digits(fraction) && |TrimZeros(fraction)| > SCALE
    ensures scaled * Power10(|fraction|) != Number(whole + fraction) * Power10(SCALE)
  {
    var trimmed := TrimZeros(fraction);
    var t := |trimmed|;
    NumberTrimmed(whole, fraction);
    LastDigit(whole, trimmed);
    Regroup(Number(whole + trimmed), |fraction| - t, SCALE);
    if scaled * Power10(|fraction|) == Number(whole + fraction) * Power10(SCALE) {
      EndsInZero(scaled, Number(whole + trimmed), t - SCALE, |fraction| - t + SCALE);
    }
  }

  lemma LastDigit(whole: string, trimmed: string)
    requires Digits(whole) && Digits(trimmed) && trimmed != "" && trimmed[|trimmed| - 1] != '0'
    ensures Number(whole + trimmed) % 10 != 0
  {
    var before, last := whole + trimmed[..|trimmed| - 1], trimmed[|trimmed| - 1];
    LastApart(whole, trimmed);
    NumberAppend(before, last);
    Remainder(Number(before), DigitValue(last));
  }

  lemma LastApart(a: string, b: string)
    requires b != ""
    ensures a + b == a + b[..|b| - 1] + [b[|b| - 1]]
  {
  }

  lemma Remainder(n: nat, digit: nat)
    requires 0 < digit < 10
    ensures (10 * n + digit) % 10 != 0
  {
  }

  lemma PowersAre()
    ensures Power10(5) == 100_000 && Power10(38) == MAX_SCALED + 1
  {
    assert Power10(3) == 1000;
    PowerSum(2, 3);
    PowerSum(5, 5);
    PowerSum(10, 9);
    PowerSum(19, 19);
    assert Power10(2) == 100 && Power10(4) == 10_000;
    PowerSum(5, 4);
  }

  /** The column is hundred-thousandths in 38 decimal digits. */
  lemma ExactlyMeans(a: Amount, scaled: int)
    requires WellDigited(a)
    ensures Exactly(a, scaled) <==>
      && scaled < Power10(38) && -scaled < Power10(38)
      && scaled * Power10(|a.fraction|) == Sign(a) * Number(a.whole + a.fraction) * 100_000
  {
    PowersAre();
  }

  // ── the conversion ──

  ghost predicate WellDigited(a: Amount) { Digits(a.whole) && Digits(a.fraction) }

  /** The digits that count, aligned to the scale. */
  ghost function Aligned(a: Amount): nat
    requires WellDigited(a) && |TrimZeros(a.fraction)| <= SCALE
  {
    NumberTrimmed(a.whole, a.fraction);
    Product(Number(a.whole + TrimZeros(a.fraction)), Power10(SCALE - |TrimZeros(a.fraction)|))
  }

  function Product(a: nat, b: nat): nat {
    AtLeastZero(a, b);
    a * b
  }

  lemma AtLeastZero(n: nat, p: nat)
    ensures n * p >= 0
  {
  }

  /** The one scaled integer that is exactly the amount, where the column has room for it. */
  lemma ExactlyAligned(a: Amount, scaled: int)
    requires WellDigited(a) && |TrimZeros(a.fraction)| <= SCALE
    ensures Exactly(a, scaled) <==> scaled == Sign(a) * Aligned(a) && Aligned(a) <= MAX_SCALED
  {
    AlignedIsExact(a.whole, a.fraction);
    var v, p := Aligned(a), Power10(|a.fraction|);
    WithSign(a.negative, v, p, Mantissa(a), Power10(SCALE));
    if Exactly(a, scaled) {
      Cancel(scaled, Sign(a) * v, p);
    }
  }

  lemma WithSign(negative: bool, v: nat, p: nat, m: nat, q: nat)
    requires v * p == m * q
    ensures var sign := if negative then -1 else 1; (sign * v) * p == sign * m * q
  {
  }

  lemma NoneFits(a: Amount, scaled: int)
    requires WellDigited(a) && |TrimZeros(a.fraction)| > SCALE
    ensures !Exactly(a, scaled)
  {
    TooPreciseForTheScale(a.whole, a.fraction, scaled);
    TooPreciseForTheScale(a.whole, a.fraction, -scaled);
    if a.negative {
      assert Sign(a) * Mantissa(a) * Power10(SCALE) == -(Mantissa(a) * Power10(SCALE));
      assert -scaled * Power10(|a.fraction|) == -(scaled * Power10(|a.fraction|));
    }
  }

  /** What is too large with some of its digits is too large with all of them. */
  lemma TooManyDigits(a: Amount, k: nat, scaled: int)
    requires WellDigited(a) && |TrimZeros(a.fraction)| <= SCALE
    requires k <= |a.whole + TrimZeros(a.fraction)| && Digits(a.whole + TrimZeros(a.fraction))
    requires Digits((a.whole + TrimZeros(a.fraction))[..k])
    requires Number((a.whole + TrimZeros(a.fraction))[..k]) > INT128_MAX
    ensures !Exactly(a, scaled)
  {
    var n, p := Number(a.whole + TrimZeros(a.fraction)), Power10(SCALE - |TrimZeros(a.fraction)|);
    NumberGrows(a.whole + TrimZeros(a.fraction), k);
    AtLeast(n, p);
    ExactlyAligned(a, scaled);
  }

  lemma AtLeast(n: nat, p: nat)
    requires p > 0
    ensures n * p >= n
  {
  }

  lemma {:induction false} ZerosAreDigits(s: string)
    ensures Digits(s) <==> Digits(TrimZeros(s))
  {
    if s != "" && s[|s| - 1] == '0' {
      var front := s[..|s| - 1];
      ZerosAreDigits(front);
      assert s == front + ['0'];
    }
  }

  function Checked(value: int): Option<nat> { if 0 <= value <= INT128_MAX then Some(value) else None }

  function Times(value: nat, power: nat): (r: Option<nat>)
    ensures Product(value, power) <= MAX_SCALED ==> r == Some(Product(value, power))
    ensures r.Some? ==> r.value == Product(value, power)
  {
    Checked(value * power)
  }

  /** The digit loop over one part, `before` being the digits read so far. */
  method AppendDigits(start: nat, part: string, ghost before: string) returns (r: Result<nat>)
    requires Digits(before) && start == Number(before) <= INT128_MAX
    ensures r.Ok? ==> Digits(part) && r.value == Number(before + part) <= INT128_MAX
    ensures r.Err? ==> r.failure == NotANumber || r.failure == TooLarge
    ensures r.Err? && r.failure.NotANumber? ==> !Digits(part)
    ensures r.Err? && r.failure.TooLarge? && Digits(part) ==> Number(before + part) > INT128_MAX
  {
    var value := start;
    assert before + part[..0] == before;
    for i := 0 to |part|
      invariant Digits(part[..i]) && value == Number(before + part[..i]) <= INT128_MAX
    {
      if !IsDigit(part[i]) { return Err(NotANumber); }
      assert before + part[..i + 1] == (before + part[..i]) + [part[i]];
      NumberAppend(before + part[..i], part[i]);
      var tens := Checked(value * 10);
      var more := if tens.None? then None else Checked(tens.value + DigitValue(part[i]));
      if more.None? {
        if Digits(part) {
          NumberGrows(before + part, |before| + i + 1);
          assert (before + part)[..|before| + i + 1] == before + part[..i + 1];
        }
        return Err(TooLarge);
      }
      value := more.value;
    }
    assert part[..|part|] == part;
    return Ok(value);
  }

  /** The text states an amount, and this is its exact value in the column. */
  ghost predicate Accepted(text: string, scaled: int) { Stated(text).Some? && Exactly(Stated(text).value, scaled) }

  /** No value in the column is what the text states. */
  ghost predicate Refused(text: string) { forall scaled :: !Accepted(text, scaled) }

  /** A text is accepted exactly where it states an amount whose value the column can hold exactly,
      and the result is that value: no check along the way refuses one that fits. */
  method Scaled(text: string) returns (r: Result<int>)
    ensures match r case Ok(scaled) => Accepted(text, scaled) case Err(_) => Refused(text)
    ensures r == Err(Empty) <==> Trim(text) == ""
  {
    var s := Trim(text);
    if s == "" { return Err(Empty); }
    var digits := Unsigned(s);
    var whole, fraction := Whole(digits), Fraction(digits);
    if whole == "" && fraction == "" { return Err(NotANumber); }
    r := Convert(s[0] == '-', whole, fraction);
    assert forall v :: Accepted(text, v) <==> IsValue(Amount(s[0] == '-', whole, fraction), v);
  }

  ghost predicate IsValue(a: Amount, scaled: int) { WellDigited(a) && Exactly(a, scaled) }

  /** The digits to a scaled value, in the order the source checks things. */
  method Convert(negative: bool, whole: string, fraction: string) returns (r: Result<int>)
    ensures match r
      case Ok(scaled) => IsValue(Amount(negative, whole, fraction), scaled)
      case Err(_) => forall scaled :: !IsValue(Amount(negative, whole, fraction), scaled)
    ensures r != Err(Empty)
  {
    ghost var a := Amount(negative, whole, fraction);
    var trimmed := TrimZeros(fraction);
    if ByteLength(trimmed) > SCALE {
      NotRepresentable(a);
      return Err(TooPrecise);
    }
    var read := AppendDigits(0, whole, "");
    assert "" + whole == whole;
    if read.Ok? {
      read := AppendDigits(read.value, trimmed, whole);
    }
    if read.Err? {
      DigitsRefused(a);
      return Err(read.failure);
    }
    DigitsDecide(a, read.value);
    var scaled := Times(read.value, Power10(SCALE - |trimmed|));
    if scaled.None? || scaled.value > MAX_SCALED { return Err(TooLarge); }
    return Ok(if negative then -scaled.value else scaled.value);
  }

  /** Once the digits are read, only the size decides. */
  lemma DigitsDecide(a: Amount, value: nat)
    requires |TrimZeros(a.fraction)| <= SCALE
    requires Digits(a.whole) && Digits(TrimZeros(a.fraction)) && Digits(a.whole + TrimZeros(a.fraction))
    requires value == Number(a.whole + TrimZeros(a.fraction))
    ensures var scaled: int := Product(value, Power10(SCALE - |TrimZeros(a.fraction)|));
      && (scaled <= MAX_SCALED ==> IsValue(a, if a.negative then -scaled else scaled))
      && (scaled > MAX_SCALED ==> forall v :: !IsValue(a, v))
  {
    ZerosAreDigits(a.fraction);
    WhatFits(a, value);
  }

  lemma WhatFits(a: Amount, value: nat)
    requires WellDigited(a) && |TrimZeros(a.fraction)| <= SCALE
    requires Digits(a.whole + TrimZeros(a.fraction)) && value == Number(a.whole + TrimZeros(a.fraction))
    ensures var scaled: int := Product(value, Power10(SCALE - |TrimZeros(a.fraction)|));
      forall v :: Exactly(a, v) <==> v == (if a.negative then -scaled else scaled) && scaled <= MAX_SCALED
  {
    forall v ensures Exactly(a, v) <==> v == Sign(a) * Aligned(a) && Aligned(a) <= MAX_SCALED {
      ExactlyAligned(a, v);
    }
  }

  /** More than five bytes of fraction left is either no number or more than five digits that count. */
  lemma NotRepresentable(a: Amount)
    requires ByteLength(TrimZeros(a.fraction)) > SCALE
    ensures forall scaled :: !IsValue(a, scaled)
  {
    if WellDigited(a) {
      ZerosAreDigits(a.fraction);
      DigitsAreBytes(TrimZeros(a.fraction));
      forall scaled ensures !Exactly(a, scaled) { NoneFits(a, scaled); }
    }
  }

  /** A part that is no number, or digits whose number no longer fits: either way there is no value to give. */
  lemma DigitsRefused(a: Amount)
    requires ByteLength(TrimZeros(a.fraction)) <= SCALE
    requires Digits(a.whole) && Digits(TrimZeros(a.fraction)) ==>
      Number(a.whole) > INT128_MAX || Number(a.whole + TrimZeros(a.fraction)) > INT128_MAX
    ensures forall scaled :: !IsValue(a, scaled)
  {
    if WellDigited(a) {
      ZerosAreDigits(a.fraction);
      var all := a.whole + TrimZeros(a.fraction);
      assert all[..|a.whole|] == a.whole && all[..|all|] == all;
      forall scaled ensures !Exactly(a, scaled) {
        TooManyDigits(a, if Number(a.whole) > INT128_MAX then |a.whole| else |all|, scaled);
      }
    }
  }

  /** Blank and absent texts are no amount; everything else must be one. */
  method ScaledOpt(text: Option<string>) returns (r: Result<Option<int>>)
    ensures text.None? || Trim(text.value) == "" ==> r == Ok(None)
    ensures text.Some? && Trim(text.value) != "" ==>
      match r
      case Ok(scaled) => scaled.Some? && Accepted(text.value, scaled.value)
      case Err(_) => Refused(text.value)
  {
    if text.None? || Trim(text.value) == "" { return Ok(None); }
    var scaled := Scaled(text.value);
    return match scaled case Ok(v) => Ok(Some(v)) case Err(failure) => Err(failure);
  }

  // ── the grammar ──

  lemma {:induction false} TrimStartSkips(a: string, s: string)
    requires Blank(a) && (s != "" ==> !IsSpace(s[0]))
    ensures TrimStart(a + s) == s
  {
    if a == "" {
      assert a + s == s;
    } else {
      assert a[0] in a && forall c | c in a[1..] :: c in a;
      TrimStartSkips(a[1..], s);
      assert (a + s)[1..] == a[1..] + s;
    }
  }

  lemma {:induction false} TrimEndSkips(s: string, b: string)
    requires Blank(b) && (s != "" ==> !IsSpace(s[|s| - 1]))
    ensures TrimEnd(s + b) == s
  {
    if b == "" {
      assert s + b == s;
    } else {
      var front := b[..|b| - 1];
      assert b[|b| - 1] in b && forall c | c in front :: c in b;
      TrimEndSkips(s, front);
      assert (s + b)[..|s + b| - 1] == s + front;
    }
  }

  function Point(written: bool): string { if written then "." else "" }

  /** Every amount as ISO 20022 writes one is read as that amount: blanks, a sign or none, digits
      with at most one point among them. */
  lemma WrittenIsStated(left: string, sign: string, whole: string, point: bool, fraction: string, right: string)
    requires Blank(left) && Blank(right) && sign in {"", "+", "-"}
    requires Digits(whole) && Digits(fraction) && whole + fraction != "" && (!point ==> fraction == "")
    ensures Stated(left + (sign + whole + Point(point) + fraction) + right)
      == Some(Amount(sign == "-", whole, fraction))
  {
    var core := sign + whole + Point(point) + fraction;
    assert !IsSpace(core[0]) && !IsSpace(core[|core| - 1]);
    TrimIs(left, core, right);
    CoreIs(sign, whole, point, fraction);
  }

  lemma TrimIs(left: string, core: string, right: string)
    requires Blank(left) && Blank(right) && core != ""
    requires !IsSpace(core[0]) && !IsSpace(core[|core| - 1])
    ensures Trim(left + core + right) == core
  {
    assert left + core + right == left + (core + right);
    TrimStartSkips(left, core + right);
    TrimEndSkips(core, right);
  }

  lemma CoreIs(sign: string, whole: string, point: bool, fraction: string)
    requires sign in {"", "+", "-"}
    requires Digits(whole) && Digits(fraction) && whole + fraction != "" && (!point ==> fraction == "")
    ensures var core := sign + whole + Point(point) + fraction;
      && (core[0] == '-' <==> sign == "-")
      && Whole(Unsigned(core)) == whole && Fraction(Unsigned(core)) == fraction
  {
    var digits := whole + Point(point) + fraction;
    assert sign + whole + Point(point) + fraction == sign + digits;
    DigitsAre(whole, point, fraction);
    SignIs(sign, digits);
  }

  lemma SignIs(sign: string, digits: string)
    requires sign in {"", "+", "-"} && digits != "" && digits[0] != '-' && digits[0] != '+'
    ensures Unsigned(sign + digits) == digits && ((sign + digits)[0] == '-' <==> sign == "-")
  {
    if sign == "" { assert sign + digits == digits; }
  }

  lemma DigitsAre(whole: string, point: bool, fraction: string)
    requires Digits(whole) && Digits(fraction) && whole + fraction != "" && (!point ==> fraction == "")
    ensures var digits := whole + Point(point) + fraction;
      && digits != "" && digits[0] != '-' && digits[0] != '+'
      && Whole(digits) == whole && Fraction(digits) == fraction
  {
    var digits := whole + Point(point) + fraction;
    PointIs(whole, point, fraction);
    assert digits[..|whole|] == whole;
    assert point ==> digits[|whole| + 1..] == fraction;
  }

  lemma PointIs(whole: string, point: bool, fraction: string)
    requires Digits(whole) && (!point ==> fraction == "")
    ensures PointAt(whole + Point(point) + fraction) == |whole|
  {
    if whole == "" {
      assert whole + Point(point) + fraction == Point(point) + fraction;
    } else {
      PointIs(whole[1..], point, fraction);
      assert (whole + Point(point) + fraction)[1..] == whole[1..] + Point(point) + fraction;
    }
  }

  lemma {:induction false} StartBlank(s: string) returns (left: string)
    ensures s == left + TrimStart(s) && Blank(left)
  {
    if s != "" && IsSpace(s[0]) {
      var more := StartBlank(s[1..]);
      left := [s[0]] + more;
    } else {
      left := "";
    }
  }

  lemma {:induction false} EndBlank(s: string) returns (right: string)
    ensures s == TrimEnd(s) + right && Blank(right)
  {
    if s != "" && IsSpace(s[|s| - 1]) {
      var more := EndBlank(s[..|s| - 1]);
      right := more + [s[|s| - 1]];
    } else {
      right := "";
    }
  }

  /** And nothing else is: what states an amount is written that way. */
  lemma StatedIsWritten(text: string) returns (left: string, sign: string, point: bool, right: string)
    requires Stated(text).Some?
    ensures var a := Stated(text).value;
      && Blank(left) && Blank(right) && sign in {"", "+", "-"} && (a.negative <==> sign == "-")
      && Digits(a.whole) && Digits(a.fraction) && a.whole + a.fraction != "" && (!point ==> a.fraction == "")
      && text == left + (sign + a.whole + Point(point) + a.fraction) + right
  {
    left := StartBlank(text);
    right := EndBlank(TrimStart(text));
    sign, point := CoreIsWritten(Trim(text));
  }

  lemma CoreIsWritten(s: string) returns (sign: string, point: bool)
    requires s != ""
    ensures sign in {"", "+", "-"} && (s[0] == '-' <==> sign == "-")
    ensures !point ==> Fraction(Unsigned(s)) == ""
    ensures s == sign + Whole(Unsigned(s)) + Point(point) + Fraction(Unsigned(s))
  {
    var digits := Unsigned(s);
    sign := SignOf(s);
    point := PointAt(digits) < |digits|;
    SplitAtPoint(digits);
    Regrouped(sign, Whole(digits), Point(point), Fraction(digits));
  }

  lemma Regrouped(a: string, b: string, c: string, d: string)
    ensures a + (b + c + d) == a + b + c + d
  {
  }

  lemma SignOf(s: string) returns (sign: string)
    requires s != ""
    ensures sign in {"", "+", "-"} && (s[0] == '-' <==> sign == "-") && s == sign + Unsigned(s)
  {
    sign := if s[0] == '-' then "-" else if s[0] == '+' then "+" else "";
  }

  lemma SplitAtPoint(s: string)
    ensures s == Whole(s) + Point(PointAt(s) < |s|) + Fraction(s)
  {
    Parts(s, PointAt(s));
  }

  lemma Parts(s: string, k: nat)
    requires k <= |s| && (k < |s| ==> s[k] == '.')
    ensures s == s[..k] + Point(k < |s|) + if k < |s| then s[k + 1..] else ""
  {
    if k < |s| {
      assert Point(true) == [s[k]];
    }
  }
}
