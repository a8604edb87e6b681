/**
 Amounts in cents converted between currencies with exact rational arithmetic and rounded half away
 from zero. Currency codes and rate texts are taken as already trimmed and upper-cased, which is the
 first thing the code does with them.
 */
module Money {
  import opened Wrappers
  import opened Text

  /** The fraction num / den with den > 0, not necessarily in lowest terms: nothing depends on that. */
  datatype Rat = Rat(num: int, den: int)

  predicate Positive(r: Rat) { r.num > 0 && r.den > 0 }

  /** a <= b, as fractions. */
  predicate AtMost(a: Rat, b: Rat) { a.num * b.den <= b.num * a.den }

  function Mul(a: Rat, b: Rat): Rat { Rat(a.num * b.num, a.den * b.den) }

  /** Division by a positive rate; there is no other. */
  function Quo(a: Rat, b: Rat): Rat
    requires Positive(b)
  {
    Rat(a.num * b.den, a.den * b.num)
  }

  // ---------------------------------------------------------------------------------------------
  // Rounding

  /** `big.Int.QuoRem`: truncated division, the remainder takes the numerator's sign. */
  function QuoRem(n: int, d: int): (int, int)
    requires d > 0
  {
    var q := if n >= 0 then n / d else -(-n / d);
    (q, n - q * d)
  }

  function Abs(x: int): nat { if x < 0 then -x else x }

  /** The rounding of `roundRatToInt64`, before the result is cut to 64 bits. */
  function RoundRat(r: Rat): int
    requires r.den > 0
  {
    var (quotient, remainder) := QuoRem(r.num, r.den);
    if remainder == 0 then quotient
    else if Abs(remainder) * 2 >= r.den then (if r.num >= 0 then quotient + 1 else quotient - 1)
    else quotient
  }

  /** `big.Int.Int64`: the low 64 bits, as a signed number. */
  function ToInt64(x: int): int {
    (x + 0x8000_0000_0000_0000) % 0x1_0000_0000_0000_0000 - 0x8000_0000_0000_0000
  }

  predicate FitsInt64(x: int) { -0x8000_0000_0000_0000 <= x < 0x8000_0000_0000_0000 }

  function RoundRatToInt64(r: Rat): int
    requires r.den > 0
  {
    ToInt64(RoundRat(r))
  }

  lemma ToInt64Exact(x: int)
    ensures FitsInt64(ToInt64(x))
    ensures ToInt64(x) == x <==> FitsInt64(x)
    ensures IsLow64(ToInt64(x), x)
  {}

  /** `y` is the signed 64-bit number that differs from `x` by a multiple of 2^64. */
  predicate IsLow64(y: int, x: int) { FitsInt64(y) && (x - y) % 0x1_0000_0000_0000_0000 == 0 }

  /** Twice the signed distance from `r` to the integer `k`, in units of 1 / r.den. */
  function Gap(k: int, r: Rat): int { 2 * (k * r.den) - 2 * r.num }

  /** `k` is an integer nearest to `r`, and the one farther from zero when two are equally near. */
  predicate IsRounding(k: int, r: Rat) {
    && -r.den <= Gap(k, r) <= r.den
    && (Gap(k, r) == r.den ==> r.num > 0)
    && (Gap(k, r) == -r.den ==> r.num < 0)
  }

  /** The quotient is exact up to a remainder smaller than the divisor, with the numerator's sign. */
  lemma QuoRemIs(n: int, d: int)
    requires d > 0
    ensures var (q, rem) := QuoRem(n, d);
            n == q * d + rem && -d < rem < d && (n >= 0 ==> rem >= 0) && (n <= 0 ==> rem <= 0)
  {
    var (q, rem) := QuoRem(n, d);
    if n >= 0 {
      assert rem == n % d;
    } else {
      assert -rem == (-n) % d;
    }
  }

  lemma RoundRatIsRounding(r: Rat)
    requires r.den > 0
    ensures IsRounding(RoundRat(r), r)
  {
    var k, d, q := RoundRat(r), r.den, QuoRem(r.num, r.den).0;
    QuoRemIs(r.num, d);
    Distribute(q, -1, d);
    Distribute(q, 1, d);
    assert k == q || k == q + 1 || k == q - 1;
  }

  lemma RoundingIsUnique(k: int, l: int, r: Rat)
    requires r.den > 0 && IsRounding(k, r) && IsRounding(l, r)
    ensures k == l
  {
    Distribute(k, l, r.den);
    SmallMultiple(k - l, r.den);
  }

  lemma Distribute(x: int, y: int, c: int)
    ensures (x - y) * c == x * c - y * c
  {}

  lemma Spread(x: int, p: int)
    requires p > 0
    ensures x >= 1 ==> x * p >= p
    ensures x <= -1 ==> x * p <= -p
  {}

  lemma SmallMultiple(x: int, p: int)
    requires p > 0 && -2 * p < 2 * (x * p) < 2 * p
    ensures x == 0
  {
    Spread(x, p);
  }

  /** So the code's rounding is odd: negating the amount negates the result. */
  lemma RoundRatIsOdd(r: Rat)
    requires r.den > 0
    ensures RoundRat(Rat(-r.num, r.den)) == -RoundRat(r)
  {
    RoundRatIsRounding(r);
    NegatedRounding(RoundRat(r), r);
    RoundRatIsRounding(Rat(-r.num, r.den));
    RoundingIsUnique(RoundRat(Rat(-r.num, r.den)), -RoundRat(r), Rat(-r.num, r.den));
  }

  lemma NegatedRounding(k: int, r: Rat)
    requires IsRounding(k, r)
    ensures IsRounding(-k, Rat(-r.num, r.den))
  {
    Distribute(0, k, r.den);
  }

  /** And monotone in the value, however the two fractions are written. */
  lemma RoundRatIsMonotone(a: Rat, b: Rat)
    requires a.den > 0 && b.den > 0 && AtMost(a, b)
    ensures RoundRat(a) <= RoundRat(b)
  {
    RoundRatIsRounding(a);
    RoundRatIsRounding(b);
    RoundingIsMonotone(RoundRat(a), RoundRat(b), a, b);
  }

  lemma RoundingIsMonotone(k: int, l: int, a: Rat, b: Rat)
    requires a.den > 0 && b.den > 0 && AtMost(a, b) && IsRounding(k, a) && IsRounding(l, b)
    ensures k <= l
  {
    var dd := a.den * b.den;
    assert dd > 0;
    // 2 * k <= 2 * a + 1 and 2 * l >= 2 * b - 1, both brought to the common denominator
    ScaledGap(k, a, b.den, dd);
    ScaledGap(l, b, a.den, dd);
    var x := k - l;
    Distribute(k, l, dd);
    assert x * dd <= dd;
    Spread(x - 1, dd);
    Distribute(x, 1, dd);
    if x == 1 {
      assert Gap(k, a) == a.den by { SameMultiple(Gap(k, a), a.den, b.den); }
      assert Gap(l, b) == -b.den by { SameMultiple(Gap(l, b), -b.den, a.den); }
      SignOfMultiple(a.num, b.den);
      SignOfMultiple(-b.num, a.den);
      Distribute(0, b.num, a.den);
    }
  }

  lemma ScaledGap(k: int, r: Rat, c: int, dd: int)
    requires r.den > 0 && c > 0 && dd == r.den * c && IsRounding(k, r)
    ensures Gap(k, r) * c == 2 * (k * dd) - 2 * (r.num * c)
    ensures -dd <= Gap(k, r) * c <= dd
    ensures -r.den * c == -dd
  {
    ScaleDifference(k * r.den, r.num, c);
    Associate(k, r.den, c);
    ScaleBound(Gap(k, r), r.den, c);
    ScaleBound(-r.den, Gap(k, r), c);
    Distribute(0, r.den, c);
  }

  lemma ScaleDifference(x: int, y: int, c: int)
    ensures (2 * x - 2 * y) * c == 2 * (x * c) - 2 * (y * c)
  {}

  lemma Associate(x: int, y: int, z: int)
    ensures x * y * z == x * (y * z)
  {}

  lemma ScaleBound(x: int, y: int, c: int)
    requires x <= y && c > 0
    ensures x * c <= y * c
  {}

  lemma SameMultiple(x: int, y: int, c: int)
    requires c > 0 && x * c == y * c
    ensures x == y
  {}

  lemma SignOfMultiple(x: int, c: int)
    requires c > 0
    ensures x > 0 ==> x * c > 0
  {}

  // ---------------------------------------------------------------------------------------------
  // Exchange-rate text: FROM/TO=rate

  datatype ExchangePair = ExchangePair(from: string, to: string, rate: Rat)

  datatype MoneyError =
    | SourceCurrencyInvalid | TargetCurrencyInvalid
    | RateMalformed | RateNotPositive | RateOfOtherCurrencies
    | RateMissing(currency: string) | RateInvalid(currency: string)

  predicate IsUpper(c: char) { 'A' <= c <= 'Z' }

  predicate IsCode(s: string) { |s| == 3 && IsUpper(s[0]) && IsUpper(s[1]) && IsUpper(s[2]) }

  function Pow10(n: nat): (r: int)
    ensures r > 0
  {
    if n == 0 then 1 else 10 * Pow10(n - 1)
  }

  /** [0-9]+(\.[0-9]+)?, with the value of the numeral. */
  function ParseDecimal(s: string): Option<Rat> {
    match Cut(s, '.')
    case Whole =>
      if s != "" && AllDigits(s) then Some(Rat(DigitsValue(s), 1)) else None
    case Pieces(whole, frac) =>
      if whole != "" && AllDigits(whole) && frac != "" && AllDigits(frac)
      then Some(Rat(DigitsValue(whole + frac), Pow10(|frac|)))
      else None
  }

  function ParseExchangeRate(text: string): (r: Result<ExchangePair, MoneyError>)
    ensures r.Ok? ==> Positive(r.value.rate)
  {
    if |text| < 8 || !IsCode(text[..3]) || text[3] != '/' || !IsCode(text[4..7]) || text[7] != '=' then
      Err(RateMalformed)
    else
      match ParseDecimal(text[8..])
      case None => Err(RateMalformed)
      case Some(rate) =>
        if rate.num <= 0 then Err(RateNotPositive) else Ok(ExchangePair(text[..3], text[4..7], rate))
  }

  /** The grammar the parser accepts, as a printer. `frac` is empty when there is no decimal point. */
  function RateText(from: string, to: string, whole: string, frac: string): string {
    from + "/" + to + "=" + Numeral(whole, frac)
  }

  ghost predicate RateParts(from: string, to: string, whole: string, frac: string) {
    IsCode(from) && IsCode(to) && whole != "" && AllDigits(whole) && AllDigits(frac)
  }

  function Numeral(whole: string, frac: string): string {
    if frac == "" then whole else whole + "." + frac
  }

  lemma ParseDecimalOf(whole: string, frac: string)
    requires whole != "" && AllDigits(whole) && AllDigits(frac)
    ensures ParseDecimal(Numeral(whole, frac)) == Some(Rat(DigitsValue(whole + frac), Pow10(|frac|)))
  {
    if frac == "" {
      assert whole + frac == whole;
    } else {
      CutAt(whole, frac, '.');
    }
  }

  /** Every well-formed text with a non-zero rate parses, to exactly the pair and the rate it spells. */
  lemma ParseUndoesRateText(from: string, to: string, whole: string, frac: string)
    requires RateParts(from, to, whole, frac)
    ensures ParseExchangeRate(RateText(from, to, whole, frac)) ==
            if DigitsValue(whole + frac) == 0 then Err(RateNotPositive)
            else Ok(ExchangePair(from, to, Rat(DigitsValue(whole + frac), Pow10(|frac|))))
  {
    ParseDecimalOf(whole, frac);
    RateTextFields(from, to, Numeral(whole, frac));
  }

  lemma RateTextFields(from: string, to: string, numeral: string)
    requires |from| == 3 && |to| == 3
    ensures var text := from + "/" + to + "=" + numeral;
            && |text| == 8 + |numeral| && text[..3] == from && text[3] == '/'
            && text[4..7] == to && text[7] == '=' && text[8..] == numeral
  {
    var text := from + "/" + to + "=" + numeral;
    assert text[..3] == from;
    assert text[4..7] == to;
    assert text[8..] == numeral;
  }

  /** And nothing else parses. */
  lemma ParsedTextIsRateText(text: string) returns (from: string, to: string, whole: string, frac: string)
    requires ParseExchangeRate(text).Ok?
    ensures RateParts(from, to, whole, frac) && text == RateText(from, to, whole, frac)
  {
    from, to := text[..3], text[4..7];
    match Cut(text[8..], '.')
    case Whole => whole, frac := text[8..], "";
    case Pieces(w, f) => whole, frac := w, f;
    assert text == text[..3] + [text[3]] + text[4..7] + [text[7]] + text[8..];
  }

  // ---------------------------------------------------------------------------------------------
  // Conversion

  const SUPPORTED: set<string> := {"USD", "EUR", "CNY", "CAD"}

  type Rates = map<string, Rat>

  function RateOf(rates: Rates, currency: string): Result<Rat, MoneyError> {
    if currency !in rates || !Positive(rates[currency]) then Err(RateMissing(currency)) else Ok(rates[currency])
  }

  /** The exact converted amount: the factor of an explicit rate, or the cross rate of the table. */
  function ConvertExactly(amount: int, source: string, target: string, rateText: string, rates: Rates)
    : (r: Result<Rat, MoneyError>)
    ensures r.Ok? ==> r.value.den > 0
  {
    if rateText != "" then
      var pair :- ParseExchangeRate(rateText);
      if pair.from == source && pair.to == target then Ok(Mul(Rat(amount, 1), pair.rate))
      else if pair.from == target && pair.to == source then Ok(Quo(Rat(amount, 1), pair.rate))
      else Err(RateOfOtherCurrencies)
    else
      var sourceRate :- RateOf(rates, source);
      var targetRate :- RateOf(rates, target);
      Ok(Quo(Mul(Rat(amount, 1), targetRate), sourceRate))
  }

  function ConvertAmountCents(amount: int, source: string, target: string, rateText: string, rates: Rates)
    : Result<int, MoneyError>
  {
    if source !in SUPPORTED then Err(SourceCurrencyInvalid)
    else if target !in SUPPORTED then Err(TargetCurrencyInvalid)
    else if source == target then Ok(amount)
    else
      var exact :- ConvertExactly(amount, source, target, rateText, rates);
      Ok(RoundRatToInt64(exact))
  }

  /**
   Whether a conversion succeeds does not depend on the amount, and with a table that lists every
   supported currency it does not depend on the table either.
   */
  ghost predicate Convertible(source: string, target: string, rateText: string) {
    && source in SUPPORTED && target in SUPPORTED
    && (source == target || rateText == "" || IsRateBetween(rateText, source, target))
  }

  /** The text is a rate between the two currencies, in either direction. */
  ghost predicate IsRateBetween(rateText: string, a: string, b: string) {
    && ParseExchangeRate(rateText).Ok?
    && var p := ParseExchangeRate(rateText).value;
       (p.from == a && p.to == b) || (p.from == b && p.to == a)
  }

  ghost predicate Complete(rates: Rates) {
    forall c :: c in SUPPORTED ==> c in rates && Positive(rates[c])
  }

  lemma ConversionSucceedsIff(amount: int, source: string, target: string, rateText: string, rates: Rates)
    requires Complete(rates)
    ensures ConvertAmountCents(amount, source, target, rateText, rates).Ok?
            <==> Convertible(source, target, rateText)
  {}

  /** `cents` is the fraction rounded, and cut to 64 bits if it does not fit. */
  ghost predicate IsCentsOf(cents: int, x: Rat) {
    && (exists k :: IsRounding(k, x) && IsLow64(cents, k))
    && (forall k :: IsRounding(k, x) && FitsInt64(k) ==> cents == k)
  }

  lemma RoundedIsCentsOf(x: Rat)
    requires x.den > 0
    ensures IsCentsOf(RoundRatToInt64(x), x)
  {
    RoundRatIsRounding(x);
    ToInt64Exact(RoundRat(x));
    forall k | IsRounding(k, x) ensures k == RoundRat(x) { RoundingIsUnique(k, RoundRat(x), x); }
  }

  /**
   Without an explicit rate the amount is multiplied by the target's units per dollar and divided by the
   source's: a rate is positive and the rest of the table does not matter.
   */
  lemma TableConversionIs(amount: int, source: string, target: string, rates: Rates)
    requires source in SUPPORTED && target in SUPPORTED
    requires source in rates && Positive(rates[source]) && target in rates && Positive(rates[target])
    ensures var r, s, t := ConvertAmountCents(amount, source, target, "", rates), rates[source], rates[target];
            && r.Ok?
            && if source == target then r.value == amount
               else IsCentsOf(r.value, Rat(amount * t.num * s.den, t.den * s.num))
  {
    if source != target {
      var s, t := rates[source], rates[target];
      assert t.den * s.num > 0;
      RoundedIsCentsOf(Rat(amount * t.num * s.den, t.den * s.num));
    }
  }

  /**
   With an explicit rate of `from` in `to` the amount is multiplied by the decimal the text spells on the way
   from `from` to `to`, and divided by it on the way back. The table does not matter.
   */
  lemma ExplicitConversionIs(amount: int, from: string, to: string, whole: string, frac: string, rates: Rates)
    requires from in SUPPORTED && to in SUPPORTED && from != to
    requires RateParts(from, to, whole, frac) && DigitsValue(whole + frac) > 0
    ensures var text, digits, unit := RateText(from, to, whole, frac), DigitsValue(whole + frac), Pow10(|frac|);
            var there, back := ConvertAmountCents(amount, from, to, text, rates),
                               ConvertAmountCents(amount, to, from, text, rates);
            && there.Ok? && IsCentsOf(there.value, Rat(amount * digits, unit))
            && back.Ok? && IsCentsOf(back.value, Rat(amount * unit, digits))
  {
    ParseUndoesRateText(from, to, whole, frac);
    RateTextFields(from, to, Numeral(whole, frac));
    PairConversionIs(amount, from, to, RateText(from, to, whole, frac),
                     DigitsValue(whole + frac), Pow10(|frac|), rates);
  }

  lemma PairConversionIs(amount: int, from: string, to: string, text: string, num: int, den: int, rates: Rates)
    requires from in SUPPORTED && to in SUPPORTED && from != to && num > 0 && den > 0
    requires text != "" && ParseExchangeRate(text) == Ok(ExchangePair(from, to, Rat(num, den)))
    ensures var there, back := ConvertAmountCents(amount, from, to, text, rates),
                               ConvertAmountCents(amount, to, from, text, rates);
            && there.Ok? && IsCentsOf(there.value, Rat(amount * num, den))
            && back.Ok? && IsCentsOf(back.value, Rat(amount * den, num))
  {
    RoundedIsCentsOf(Rat(amount * num, den));
    RoundedIsCentsOf(Rat(amount * den, num));
  }

  /** The positive fraction by which a successful conversion scales every amount. */
  function Factor(source: string, target: string, rateText: string, rates: Rates): Rat
    requires ConvertExactly(0, source, target, rateText, rates).Ok?
  {
    ConvertExactly(1, source, target, rateText, rates).value
  }

  lemma ConversionScales(amount: int, source: string, target: string, rateText: string, rates: Rates)
    requires ConvertExactly(0, source, target, rateText, rates).Ok?
    ensures var exact, f := ConvertExactly(amount, source, target, rateText, rates), Factor(source, target, rateText,
        rates);
            Positive(f) && exact.Ok? && exact.value == Rat(amount * f.num, f.den)
  {
    if rateText == "" {
      var t, s := rates[target], rates[source];
      assert amount * t.num * s.den == amount * (t.num * s.den);
    }
  }

  /** A larger amount never converts to less, as long as both results fit in 64 bits. */
  lemma ConversionIsMonotone(a: int, b: int, source: string, target: string, rateText: string, rates: Rates)
    requires a <= b && ConvertAmountCents(a, source, target, rateText, rates).Ok?
    requires source != target ==>
               && FitsInt64(RoundRat(ConvertExactly(a, source, target, rateText, rates).value))
               && ConvertExactly(b, source, target, rateText, rates).Ok?
               && FitsInt64(RoundRat(ConvertExactly(b, source, target, rateText, rates).value))
    ensures ConvertAmountCents(b, source, target, rateText, rates).Ok?
    ensures ConvertAmountCents(a, source, target, rateText, rates).value
            <= ConvertAmountCents(b, source, target, rateText, rates).value
  {
    if source != target {
      ConversionScales(a, source, target, rateText, rates);
      ConversionScales(b, source, target, rateText, rates);
      var f := Factor(source, target, rateText, rates);
      ScaleBound(a, b, f.num);
      ScaleBound(a * f.num, b * f.num, f.den);
      var x, y := Rat(a * f.num, f.den), Rat(b * f.num, f.den);
      RoundRatIsMonotone(x, y);
      ToInt64Exact(RoundRat(x));
      ToInt64Exact(RoundRat(y));
    }
  }

  // ---------------------------------------------------------------------------------------------
  // There and back with one explicit rate

  function Scale(a: int, f: Rat): Rat { Rat(a * f.num, f.den) }

  function Inverse(f: Rat): Rat { Rat(f.den, f.num) }

  /** The cents `a` comes back as when it is scaled by `f`, rounded, scaled back and rounded again. */
  function RoundTrip(a: int, f: Rat): int
    requires Positive(f)
  {
    RoundRat(Scale(RoundRat(Scale(a, f)), Inverse(f)))
  }

  /** The error is at most 1/2 + 1/(2f) cents, and there is none when f is at least one. */
  lemma RoundTripError(a: int, f: Rat)
    requires Positive(f)
    ensures 2 * (Abs(RoundTrip(a, f) - a) * f.num) <= f.num + f.den
    ensures f.num >= f.den ==> RoundTrip(a, f) == a
  {
    var there := RoundRat(Scale(a, f));
    RoundRatIsRounding(Scale(a, f));
    RoundRatIsRounding(Scale(there, Inverse(f)));
    RoundingsThereAndBack(a, there, RoundTrip(a, f), f);
  }

  lemma RoundingsThereAndBack(a: int, there: int, back: int, f: Rat)
    requires Positive(f) && IsRounding(there, Scale(a, f)) && IsRounding(back, Scale(there, Inverse(f)))
    ensures 2 * (Abs(back - a) * f.num) <= f.num + f.den
    ensures f.num >= f.den ==> back == a
  {
    var p, q := f.num, f.den;
    Distribute(back, a, p);
    Distribute(a, back, p);
    assert -p - q <= 2 * ((back - a) * p) <= p + q;
    if p > q {
      SmallMultiple(back - a, p);
    } else if p == q {
      Distribute(there, a, p);
      Distribute(back, there, p);
      SmallMultiple(there - a, p);
      SmallMultiple(back - there, p);
    }
  }

  /** `a` comes back: twice the amount times what the factor lacks to one is below the factor's numerator. */
  predicate Returns(a: nat, f: Rat) { 2 * (a * (f.den - f.num)) < f.num }

  /** An amount that returns is rounded to itself both ways. */
  lemma SmallAmountsReturn(a: int, f: Rat)
    requires Positive(f) && f.num < f.den && Returns(Abs(a), f)
    ensures RoundTrip(a, f) == a
  {
    SelfIsRounding(a, f);
    RoundRatIsRounding(Scale(a, f));
    RoundingIsUnique(RoundRat(Scale(a, f)), a, Scale(a, f));
    RoundRatIsRounding(Scale(a, Inverse(f)));
    RoundingIsUnique(RoundRat(Scale(a, Inverse(f))), a, Scale(a, Inverse(f)));
  }

  lemma SelfIsRounding(a: int, f: Rat)
    requires Positive(f) && f.num < f.den && Returns(Abs(a), f)
    ensures IsRounding(a, Scale(a, f)) && IsRounding(a, Scale(a, Inverse(f)))
  {
    GapsOfSelf(a, f);
    if a != 0 { Spread(Abs(a), f.den - f.num); }
  }

  lemma GapsOfSelf(a: int, f: Rat)
    requires Positive(f) && f.num < f.den
    ensures Gap(a, Scale(a, f)) == 2 * (a * (f.den - f.num))
    ensures Gap(a, Scale(a, Inverse(f))) == -2 * (a * (f.den - f.num))
    ensures a >= 0 ==> a * (f.den - f.num) == Abs(a) * (f.den - f.num)
    ensures a < 0 ==> a * (f.den - f.num) == -(Abs(a) * (f.den - f.num))
  {
    MultiplyDifference(a, f.den, f.num);
    if a < 0 { Distribute(0, Abs(a), f.den - f.num); }
  }

  /** The first positive amount that does not return. */
  function FirstLost(f: Rat): (a: nat)
    requires Positive(f) && f.num < f.den
    ensures 1 <= a && !Returns(a, f) && Returns(a - 1, f)
  {
    var d := f.den - f.num;
    var a := (f.num + 2 * d - 1) / (2 * d);
    CeilingQuotient(f.num, 2 * d, a);
    DoubleOut(a, d);
    DoubleOut(a - 1, d);
    a
  }

  lemma FirstLostWithin(f: Rat, n: nat)
    requires Positive(f) && f.num < f.den && !Returns(n, f)
    ensures FirstLost(f) <= n
  {
    if FirstLost(f) > n { ScaleBound(n, FirstLost(f) - 1, f.den - f.num); }
  }

  lemma CeilingQuotient(p: int, m: int, a: int)
    requires p > 0 && m > 0 && a == (p + m - 1) / m
    ensures a >= 1 && (a - 1) * m < p <= a * m
  {
    assert p + m - 1 == a * m + (p + m - 1) % m;
    Distribute(a, 1, m);
    if a <= 0 { ScaleBound(a, 0, m); }
  }

  lemma DoubleOut(a: int, d: int)
    ensures a * (2 * d) == 2 * (a * d)
  {}

  /** Below one some amount is lost: this one comes back different, and all smaller ones return. */
  lemma ShrinkingFactorLoses(f: Rat)
    requires Positive(f) && f.num < f.den
    ensures var a := FirstLost(f);
            && RoundTrip(a, f) != a && 0 <= RoundTrip(a, f) <= a + 1
            && forall b :: Abs(b) < a ==> RoundTrip(b, f) == b
  {
    FirstLostIsLost(f);
    forall b | Abs(b) < FirstLost(f) ensures RoundTrip(b, f) == b { BelowFirstLost(b, f); }
  }

  lemma BelowFirstLost(b: int, f: Rat)
    requires Positive(f) && f.num < f.den && Abs(b) < FirstLost(f)
    ensures RoundTrip(b, f) == b
  {
    ScaleBound(Abs(b), FirstLost(f) - 1, f.den - f.num);
    SmallAmountsReturn(b, f);
  }

  lemma FirstLostIsLost(f: Rat)
    requires Positive(f) && f.num < f.den
    ensures var a := FirstLost(f); RoundTrip(a, f) != a && 0 <= RoundTrip(a, f) <= a + 1
  {
    var a, p, q := FirstLost(f), f.num, f.den;
    var d, there := q - p, RoundRat(Scale(a, f));
    RoundRatIsRounding(Scale(a, f));
    RoundRatIsRounding(Scale(there, Inverse(f)));
    Distribute(a, 1, d);
    GapsOfSelf(a, f);
    if 2 * (a * d) <= q {
      Spread(a, p);
      RoundingIsUnique(there, a, Scale(a, f));
      LostUpward(a, RoundTrip(a, f), f);
    } else {
      OneLess(a, f);
      RoundingIsUnique(there, a - 1, Scale(a, f));
      LostDownward(a, RoundTrip(a, f), f);
    }
  }

  lemma LostUpward(a: int, back: int, f: Rat)
    requires Positive(f) && f.num < f.den && a >= 1 && IsRounding(back, Scale(a, Inverse(f)))
    requires f.num <= 2 * (a * (f.den - f.num)) <= f.den
    ensures a < back <= a + 1
  {
    var p, q, d := f.num, f.den, f.den - f.num;
    GapsOfSelf(a, f);
    Distribute(back, a, p);
    assert Gap(back, Scale(a, Inverse(f))) == 2 * ((back - a) * p) - 2 * (a * d);
    Spread(a, d);
    Spread(a, q);
    Spread(back - a, p);
    Distribute(back - a, 2, p);
    Spread(back - a - 2, p);
    assert back == a ==> (back - a) * p == 0;
  }

  lemma OneLess(a: int, f: Rat)
    requires Positive(f) && f.num < f.den && a >= 1
    requires f.den < 2 * (a * (f.den - f.num)) < f.den + (f.den - f.num)
    ensures IsRounding(a - 1, Scale(a, f))
  {
    GapsOfSelf(a, f);
    Distribute(a, 1, f.den);
  }

  lemma LostDownward(a: int, back: int, f: Rat)
    requires Positive(f) && f.num < f.den && a >= 1 && IsRounding(back, Scale(a - 1, Inverse(f)))
    requires f.den < 2 * (a * (f.den - f.num)) < f.den + (f.den - f.num)
    ensures 0 <= back < a
  {
    var p, q, d := f.num, f.den, f.den - f.num;
    MultiplyDifference(a, q, p);
    Distribute(a, 1, q);
    Distribute(back, a, p);
    assert Gap(back, Scale(a - 1, Inverse(f))) == 2 * ((back - a) * p) - 2 * (a * d) + 2 * q;
    Spread(back, p);
    if a > 1 { Spread(a - 1, q); }
    if back >= a {
      ScaleBound(0, back - a, p);
    }
  }

  lemma MultiplyDifference(n: int, x: int, y: int)
    ensures n * (x - y) == n * x - n * y
  {}

  /**
   Which factors give back every amount up to `n` cents: those of at least one, and those so close to
   one that `n` itself returns.
   */
  lemma RoundTripIsExactUpTo(f: Rat, n: nat)
    requires Positive(f)
    ensures (forall a :: Abs(a) <= n ==> RoundTrip(a, f) == a) <==> f.num >= f.den || Returns(n, f)
    ensures (forall a :: Abs(a) <= n && a != n ==> RoundTrip(a, f) == a) <==> n == 0 || f.num >= f.den || Returns(n, f)
  {
    if f.num >= f.den {
      forall a ensures RoundTrip(a, f) == a { RoundTripError(a, f); }
    } else if Returns(n, f) {
      forall a | Abs(a) <= n ensures RoundTrip(a, f) == a { ReturnsBelow(a, n, f); }
    } else {
      var a := LostWithin(f, n);
    }
  }

  lemma ReturnsBelow(a: int, n: nat, f: Rat)
    requires Positive(f) && f.num < f.den && Returns(n, f) && Abs(a) <= n
    ensures RoundTrip(a, f) == a
  {
    ScaleBound(Abs(a), n, f.den - f.num);
    SmallAmountsReturn(a, f);
  }

  lemma LostWithin(f: Rat, n: nat) returns (a: int)
    requires Positive(f) && f.num < f.den && !Returns(n, f)
    ensures Abs(a) <= n && a < 0 && RoundTrip(a, f) != a
  {
    FirstLostWithin(f, n);
    var first: int := FirstLost(f);
    ShrinkingFactorLoses(f);
    NegativeRoundTrip(first, f);
    a := -first;
  }

  lemma NegativeRoundTrip(a: int, f: Rat)
    requires Positive(f)
    ensures RoundTrip(-a, f) == -RoundTrip(a, f)
  {
    Distribute(0, a, f.num);
    RoundRatIsOdd(Scale(a, f));
    var there := RoundRat(Scale(a, f));
    Distribute(0, there, f.den);
    RoundRatIsOdd(Scale(there, Inverse(f)));
  }

  /** On the 64-bit amounts of the code: every one returns exactly for these factors. */
  lemma RoundTripIsExactIff(f: Rat)
    requires Positive(f)
    ensures (forall a :: FitsInt64(a) ==> RoundTrip(a, f) == a)
            <==> f.num >= f.den || 0x1_0000_0000_0000_0000 * (f.den - f.num) < f.num
  {
    RoundTripIsExactUpTo(f, 0x8000_0000_0000_0000);
    assert forall a :: FitsInt64(a) <==> Abs(a) <= 0x8000_0000_0000_0000 && a != 0x8000_0000_0000_0000;
  }

  /**
   The round trip of the code. With an explicit rate the factor back is the inverse of the factor
   there, so while both results fit in 64 bits the two conversions compose to `RoundTrip`.
   */
  lemma ExplicitRateRoundTrip(amount: int, source: string, target: string, rateText: string, rates: Rates)
    requires source in SUPPORTED && target in SUPPORTED && source != target && rateText != ""
    requires ConvertExactly(0, source, target, rateText, rates).Ok?
    requires var f := Factor(source, target, rateText, rates);
             Positive(f) && FitsInt64(RoundRat(Scale(amount, f))) && FitsInt64(RoundTrip(amount, f))
    ensures var p, f := ParseExchangeRate(rateText).value, Factor(source, target, rateText, rates);
            var there := ConvertAmountCents(amount, source, target, rateText, rates);
            && f == (if p.from == source then p.rate else Inverse(p.rate))
            && there.Ok?
            && ConvertAmountCents(there.value, target, source, rateText, rates) == Ok(RoundTrip(amount, f))
            && (f.num >= f.den ==> RoundTrip(amount, f) == amount)
            && 2 * (Abs(RoundTrip(amount, f) - amount) * f.num) <= f.num + f.den
  {
    var f := Factor(source, target, rateText, rates);
    ConversionScales(amount, source, target, rateText, rates);
    var there := RoundRat(Scale(amount, f));
    ToInt64Exact(there);
    ConversionScales(there, target, source, rateText, rates);
    ToInt64Exact(RoundTrip(amount, f));
    RoundTripError(amount, f);
  }

  /** The code's conversion there and back with one explicit rate. */
  function ThereAndBack(amount: int, source: string, target: string, rateText: string, rates: Rates)
    : Result<int, MoneyError>
  {
    var there :- ConvertAmountCents(amount, source, target, rateText, rates);
    ConvertAmountCents(there, target, source, rateText, rates)
  }

  /**
   Every 64-bit amount whose conversion fits comes back, if and only if the factor there is at least one
   or misses one by less than 2^-64 of itself.
   */
  lemma ExplicitRateReturnsAllIff(source: string, target: string, rateText: string, rates: Rates)
    requires source in SUPPORTED && target in SUPPORTED && source != target && rateText != ""
    requires ConvertExactly(0, source, target, rateText, rates).Ok?
    ensures var f := Factor(source, target, rateText, rates);
            (forall a :: FitsInt64(a) && FitsInt64(RoundRat(Scale(a, f))) ==>
                ThereAndBack(a, source, target, rateText, rates) == Ok(a))
            <==> f.num >= f.den || 0x1_0000_0000_0000_0000 * (f.den - f.num) < f.num
  {
    var f := Factor(source, target, rateText, rates);
    ConversionScales(0, source, target, rateText, rates);
    forall a | FitsInt64(a) && FitsInt64(RoundRat(Scale(a, f)))
      ensures ThereAndBack(a, source, target, rateText, rates) == Ok(ToInt64(RoundTrip(a, f)))
    {
      ThereAndBackIs(a, source, target, rateText, rates);
    }
    if f.num >= f.den || 0x1_0000_0000_0000_0000 * (f.den - f.num) < f.num {
      RoundTripIsExactIff(f);
      forall a | FitsInt64(a) ensures ToInt64(RoundTrip(a, f)) == a { ToInt64Exact(a); }
    } else {
      var a := LostInt64(f);
    }
  }

  /** Otherwise some 64-bit amount is lost, and its way back shows even after the cut to 64 bits. */
  lemma LostInt64(f: Rat) returns (a: int)
    requires Positive(f) && f.num < f.den && 0x1_0000_0000_0000_0000 * (f.den - f.num) >= f.num
    ensures FitsInt64(a) && FitsInt64(RoundRat(Scale(a, f))) && ToInt64(RoundTrip(a, f)) != a
  {
    FirstLostWithin(f, 0x8000_0000_0000_0000);
    var first: int := FirstLost(f);
    a := -first;
    ShrinksToward(a, f);
    NegativeIsLost(first, f);
  }

  lemma NegativeIsLost(first: int, f: Rat)
    requires Positive(f) && f.num < f.den && first == FirstLost(f) <= 0x8000_0000_0000_0000
    ensures ToInt64(RoundTrip(-first, f)) != -first
  {
    ShrinkingFactorLoses(f);
    NegativeRoundTrip(first, f);
    WrapsApart(-RoundTrip(first, f), -first);
  }

  lemma ThereAndBackIs(a: int, source: string, target: string, rateText: string, rates: Rates)
    requires source in SUPPORTED && target in SUPPORTED && source != target && rateText != ""
    requires ConvertExactly(0, source, target, rateText, rates).Ok?
    requires Positive(Factor(source, target, rateText, rates))
    requires FitsInt64(RoundRat(Scale(a, Factor(source, target, rateText, rates))))
    ensures ThereAndBack(a, source, target, rateText, rates) == Ok(ToInt64(RoundTrip(a, Factor(source, target,
        rateText, rates))))
  {
    var f := Factor(source, target, rateText, rates);
    ConversionScales(a, source, target, rateText, rates);
    var there := RoundRat(Scale(a, f));
    ToInt64Exact(there);
    ConversionScales(there, target, source, rateText, rates);
  }

  /** A factor below one never makes an amount larger. */
  lemma ShrinksToward(a: int, f: Rat)
    requires Positive(f) && f.num < f.den && a <= 0
    ensures a <= RoundRat(Scale(a, f)) <= 0
  {
    var zero, whole := Rat(0, f.den), Rat(a * f.den, f.den);
    if a < 0 {
      MultiplyDifference(a, f.den, f.num);
      Spread(-a, f.den - f.num);
      Distribute(0, -a, f.den - f.num);
      Spread(a, f.num);
    }
    ScaleBound(a * f.den, a * f.num, f.den);
    ScaleBound(a * f.num, 0, f.den);
    RoundRatIsMonotone(whole, Scale(a, f));
    RoundRatIsMonotone(Scale(a, f), zero);
    RoundRatIsRounding(whole);
    RoundingIsUnique(RoundRat(whole), a, whole);
  }

  /** Two different integers less than 2^64 apart differ in their low 64 bits. */
  lemma WrapsApart(x: int, y: int)
    requires FitsInt64(y) && x != y && -0x1_0000_0000_0000_0000 < x - y < 0x1_0000_0000_0000_0000
    ensures ToInt64(x) != y
  {}
}
