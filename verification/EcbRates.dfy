/**
 Refreshing the rate table: euro reference rates become dollar rates, printed with eight decimals and
 stored, and are read back when an index of the table is asked for.

 The download is not part of this model: a refresh starts from the quotes it fetched. `parse` stands
 for `big.Rat.SetString`.
 */
module EcbRates {
  import opened Wrappers
  import opened Text
  import opened LedgerStore
  import opened Money
  import opened Rates

  /** One quote: units of the currency per euro. */
  datatype Cube = Cube(currency: string, rate: string)

  // ---------------------------------------------------------------------------------------------
  // Eight decimals

  const DECIMALS: nat := 8
  const UNIT: nat := 100_000_000

  /** The last `width` decimal digits of n, with leading zeros. */
  function Padded(n: nat, width: nat): (s: string)
    ensures |s| == width && AllDigits(s)
  {
    if width == 0 then "" else Padded(n / 10, width - 1) + ['0' + (n % 10) as char]
  }

  /** `big.Rat.FloatString(8)` of a positive fraction: the nearest multiple of 1/UNIT, halves rounded up. */
  function FloatString(r: Rat): string
    requires Positive(r)
  {
    var k := Ticks(r);
    Decimal(k / UNIT) + "." + Padded(k % UNIT, DECIMALS)
  }

  /** The fraction in units of the eighth decimal, rounded. */
  function Ticks(r: Rat): nat
    requires Positive(r)
  {
    TicksAreNatural(r);
    RoundRat(Rat(r.num * UNIT, r.den))
  }

  lemma TicksAreNatural(r: Rat)
    requires Positive(r)
    ensures RoundRat(Rat(r.num * UNIT, r.den)) >= 0
  {
    assert r.num * UNIT >= 0;
  }

  lemma {:induction false} PaddedAppends(s: string, n: nat, width: nat)
    requires AllDigits(s) && n < Pow10(width)
    ensures DigitsValue(s + Padded(n, width)) == DigitsValue(s) * Pow10(width) + n
  {
    if width == 0 {
      assert s + "" == s;
    } else {
      var t, init, last := s + Padded(n, width), s + Padded(n / 10, width - 1), '0' + (n % 10) as char;
      assert t == init + [last];
      PaddedAppends(s, n / 10, width - 1);
      LastDigit(init, n % 10);
      Shift(DigitsValue(s), Pow10(width - 1), n);
    }
  }

  lemma LastDigit(s: string, d: nat)
    requires AllDigits(s) && d < 10
    ensures AllDigits(s + ['0' + d as char]) && DigitsValue(s + ['0' + d as char]) == 10 * DigitsValue(s) + d
  {
    var t := s + ['0' + d as char];
    assert t[..|t| - 1] == s;
  }

  lemma Shift(d: nat, p: nat, n: nat)
    ensures 10 * (d * p + n / 10) + n % 10 == d * (10 * p) + n
  {}

  lemma UnitIsPow10()
    ensures Pow10(DECIMALS) == UNIT
  {
    assert Pow10(4) == 10_000;
    assert Pow10(8) == 10 * (10 * (10 * (10 * Pow10(4))));
  }

  /** Reading the text back gives exactly the rounded fraction. */
  lemma FloatStringParses(r: Rat)
    requires Positive(r)
    ensures ParseDecimal(FloatString(r)) == Some(Rat(Ticks(r), UNIT))
  {
    var k := Ticks(r);
    var whole, frac := Decimal(k / UNIT), Padded(k % UNIT, DECIMALS);
    UnitIsPow10();
    ParseDecimalOf(whole, frac);
    PaddedAppends(whole, k % UNIT, DECIMALS);
    DigitsOfDecimal(k / UNIT);
  }

  /** The text is zero exactly for fractions below half a unit of the last decimal. */
  lemma TicksVanishIff(r: Rat)
    requires Positive(r)
    ensures Ticks(r) == 0 <==> 2 * (r.num * UNIT) < r.den
  {
    var scaled := Rat(r.num * UNIT, r.den);
    RoundRatIsRounding(scaled);
    if 2 * (r.num * UNIT) < r.den { RoundingIsUnique(Ticks(r), 0, scaled); }
  }

  // ---------------------------------------------------------------------------------------------
  // From quotes to rates

  /** The last quote of the currency decides; the euro is worth one euro unless it is quoted. */
  function EuroRate(parse: Parser, cubes: seq<Cube>, currency: string): Option<Rat> {
    if cubes == [] then (if currency == "EUR" then Some(Rat(1, 1)) else None)
    else if cubes[|cubes| - 1].currency == currency then parse(cubes[|cubes| - 1].rate)
    else EuroRate(parse, cubes[..|cubes| - 1], currency)
  }

  ghost predicate AllPositive(parse: Parser, cubes: seq<Cube>) {
    forall i :: 0 <= i < |cubes| && cubes[i].currency in SUPPORTED ==>
      parse(cubes[i].rate).Some? && Positive(parse(cubes[i].rate).value)
  }

  /** Every quote is positive and every supported currency has one. */
  ghost predicate Quoted(parse: Parser, cubes: seq<Cube>) {
    AllPositive(parse, cubes) && forall c :: c in SUPPORTED ==> EuroRate(parse, cubes, c).Some?
  }

  lemma {:induction false} QuotesArePositive(parse: Parser, cubes: seq<Cube>, c: string)
    requires AllPositive(parse, cubes) && c in SUPPORTED && EuroRate(parse, cubes, c).Some?
    ensures Positive(EuroRate(parse, cubes, c).value)
  {
    if cubes != [] && cubes[|cubes| - 1].currency != c { QuotesArePositive(parse, cubes[..|cubes| - 1], c); }
  }

  /** Units of the currency per dollar, exactly. */
  function UnitsPerUSD(parse: Parser, cubes: seq<Cube>, c: string): (r: Rat)
    requires Quoted(parse, cubes) && c in SUPPORTED
    ensures Positive(r)
  {
    QuotesArePositive(parse, cubes, c);
    QuotesArePositive(parse, cubes, "USD");
    if c == "USD" then Rat(1, 1) else Quo(EuroRate(parse, cubes, c).value, EuroRate(parse, cubes, "USD").value)
  }

  /** The exact dollar rates of all supported currencies. */
  function UnitsOf(parse: Parser, cubes: seq<Cube>): (units: Money.Rates)
    requires Quoted(parse, cubes)
    ensures AllSupported(units)
  {
    map c | c in SUPPORTED :: UnitsPerUSD(parse, cubes, c)
  }

  ghost predicate AllSupported(units: Money.Rates) {
    units.Keys == SUPPORTED && forall c :: c in units ==> Positive(units[c])
  }

  /** The rows list exactly these currencies, each at its rate rounded to eight decimals. */
  ghost predicate Tabulates(units: Money.Rates, rows: seq<ExchangeRate>)
    requires forall c :: c in units ==> Positive(units[c])
  {
    forall c :: First(rows, c) == if c in units then Some(FloatString(units[c])) else None
  }

  /** The map holds the euro rates the quotes give. */
  ghost predicate Collects(parse: Parser, cubes: seq<Cube>, euroRates: Money.Rates) {
    forall c :: c in SUPPORTED ==> EuroRate(parse, cubes, c) == if c in euroRates then Some(euroRates[c]) else None
  }

  lemma CollectsNext(parse: Parser, cubes: seq<Cube>, i: nat, euroRates: Money.Rates)
    requires i < |cubes| && Collects(parse, cubes[..i], euroRates)
    ensures cubes[i].currency !in SUPPORTED ==> Collects(parse, cubes[..i + 1], euroRates)
    ensures parse(cubes[i].rate).Some? ==>
              Collects(parse, cubes[..i + 1], euroRates[cubes[i].currency := parse(cubes[i].rate).value])
    ensures AllPositive(parse, cubes[..i + 1]) <==>
              && AllPositive(parse, cubes[..i])
              && (cubes[i].currency in SUPPORTED ==>
                    parse(cubes[i].rate).Some? && Positive(parse(cubes[i].rate).value))
  {
    assert cubes[..i + 1] == cubes[..i] + [cubes[i]];
    LastQuoteDecides(parse, cubes[..i], cubes[i]);
    assert forall k :: 0 <= k < i ==> cubes[..i + 1][k] == cubes[..i][k];
  }

  method RatesFromECBCubes(parse: Parser, cubes: seq<Cube>) returns (r: Result<seq<ExchangeRate>, LedgerError>)
    ensures r.Ok? <==> Quoted(parse, cubes)
    ensures r.Ok? ==> Tabulates(UnitsOf(parse, cubes), r.value)
  {
    var euroRates := map["EUR" := Rat(1, 1)];
    for i := 0 to |cubes|
      invariant AllPositive(parse, cubes[..i])
      invariant Collects(parse, cubes[..i], euroRates)
    {
      CollectsNext(parse, cubes, i, euroRates);
      if cubes[i].currency !in SUPPORTED {
        continue;
      }
      var rate := parse(cubes[i].rate);
      if rate.None? || !Positive(rate.value) {
        return Err(InvalidInput);
      }
      euroRates := euroRates[cubes[i].currency := rate.value];
    }
    assert cubes[..|cubes|] == cubes;
    if "USD" !in euroRates {
      assert EuroRate(parse, cubes, "USD").None?;
      return Err(InvalidInput);
    }
    if c :| c in SUPPORTED && c !in euroRates {
      assert EuroRate(parse, cubes, c).None?;
      return Err(InvalidInput);
    }
    forall c | c in SUPPORTED ensures Positive(euroRates[c]) { QuotesArePositive(parse, cubes, c); }
    var rates := Rows(UnitsOf(parse, cubes), euroRates);
    rates := NormalizeExchangeRates(rates);
    return Ok(rates);
  }

  /** The rows of all supported currencies, in the order a map is walked. */
  method Rows(ghost units: Money.Rates, euroRates: Money.Rates) returns (rates: seq<ExchangeRate>)
    requires AllSupported(units) && forall c :: c in SUPPORTED ==> c in euroRates && Positive(euroRates[c])
    requires forall c :: c in units ==> units[c] == if c == "USD" then Rat(1, 1) else Quo(euroRates[c], euroRates["USD"])
    ensures Tabulates(units, rates)
  {
    rates := [];
    var pending := SUPPORTED;
    while pending != {}
      invariant pending <= SUPPORTED
      invariant forall c :: First(rates, c) == if c in units && c !in pending then Some(FloatString(units[c])) else None
      decreases pending
    {
      var currency :| currency in pending;
      var unitsPerUSD := if currency == "USD" then Rat(1, 1) else Quo(euroRates[currency], euroRates["USD"]);
      assert unitsPerUSD == units[currency];
      var row := ExchangeRate(currency, FloatString(unitsPerUSD));
      forall c ensures First(rates + [row], c) ==
          if First(rates, c).Some? then First(rates, c) else if row.currency == c then Some(row.unitsPerUSD) else None
      {
        FirstOfAppended(rates, row, c);
      }
      rates := rates + [row];
      pending := pending - {currency};
    }
  }

  /** `RefreshExchangeRates` with what the fetcher returned. */
  method RefreshExchangeRates(store: MemoryStore, fetched: Result<seq<ExchangeRate>, LedgerError>)
    returns (r: Result<(), LedgerError>)
    modifies store
    ensures r.Ok? <==> fetched.Ok?
    ensures r.Err? ==> store.Contents() == old(store.Contents())
    ensures store.Contents() == old(store.Contents()).(rates := store.rates)
    ensures r.Ok? ==> forall c :: First(store.rates, c) == if c in SUPPORTED then First(fetched.value, c) else None
  {
    if fetched.Err? {
      return Err(fetched.error);
    }
    var normalized := NormalizeExchangeRates(fetched.value);
    store.ReplaceExchangeRates(normalized);
    return Ok(());
  }

  // ---------------------------------------------------------------------------------------------
  // Reading a refreshed table

  /** The library reads the printed rates as the numerals they are. */
  ghost predicate ReadsRates(parse: Parser, units: Money.Rates)
    requires forall c :: c in units ==> Positive(units[c])
  {
    forall c :: c in units ==> parse(FloatString(units[c])) == ParseDecimal(FloatString(units[c]))
  }

  /**
   A table that was refreshed without an error can still be unusable. Its index exists exactly when no
   supported currency is worth more than UNIT * 2 dollars: below half a unit of the eighth decimal the
   printed rate is zero. Where it exists, each rate is off by at most that half unit.
   */
  lemma RefreshedTableIndexesIff(parse: Parser, units: Money.Rates, rows: seq<ExchangeRate>)
    requires AllSupported(units) && ReadsRates(parse, units) && Tabulates(units, rows)
    ensures Index(parse, rows).Ok? <==> forall c :: c in units ==> units[c].den <= 2 * (units[c].num * UNIT)
    ensures Index(parse, rows).Ok? ==>
              forall c :: c in units ==>
                var u, read := units[c], Index(parse, rows).value[c];
                read.den == UNIT && IsRounding(read.num, Rat(u.num * UNIT, u.den))
  {
    assert First(rows, "USD").Some? && rows != [];
    forall c | c in units
      ensures parse(First(rows, c).value) == Some(Rat(Ticks(units[c]), UNIT))
      ensures Listed(parse, rows, c) <==> units[c].den <= 2 * (units[c].num * UNIT)
      ensures IsRounding(Ticks(units[c]), Rat(units[c].num * UNIT, units[c].den))
    {
      RefreshedRateReads(parse, units, rows, c);
    }
  }

  lemma RefreshedRateReads(parse: Parser, units: Money.Rates, rows: seq<ExchangeRate>, c: string)
    requires AllSupported(units) && ReadsRates(parse, units) && Tabulates(units, rows) && c in units
    ensures First(rows, c).Some? && parse(First(rows, c).value) == Some(Rat(Ticks(units[c]), UNIT))
    ensures Listed(parse, rows, c) <==> units[c].den <= 2 * (units[c].num * UNIT)
    ensures IsRounding(Ticks(units[c]), Rat(units[c].num * UNIT, units[c].den))
  {
    var u := units[c];
    FloatStringParses(u);
    TicksVanishIff(u);
    RoundRatIsRounding(Rat(u.num * UNIT, u.den));
  }

  lemma LastQuoteDecides(parse: Parser, cubes: seq<Cube>, cube: Cube)
    ensures forall c :: EuroRate(parse, cubes + [cube], c) ==
              if cube.currency == c then parse(cube.rate) else EuroRate(parse, cubes, c)
  {
    assert (cubes + [cube])[..|cubes|] == cubes;
  }

  /** For one: the dollar and the Canadian dollar at par with the euro, and the yuan at a billionth of it. */
  const TINY_QUOTES: seq<Cube> := [Cube("USD", "1"), Cube("CAD", "1")] + [Cube("CNY", "0.000000001")]

  /** The refreshed table. */
  const TINY_TABLE: seq<ExchangeRate> := [
    ExchangeRate("CAD", "1.00000000"), ExchangeRate("CNY", "0.00000000"),
    ExchangeRate("EUR", "1.00000000"), ExchangeRate("USD", "1.00000000")]

  lemma {:induction false} ZerosArePadding(width: nat)
    ensures forall i :: 0 <= i < width ==> Padded(0, width)[i] == '0'
  {
    if width > 0 { ZerosArePadding(width - 1); }
  }

  /** Eight zeros, alone and before a one. */
  lemma Zeros()
    ensures Padded(0, DECIMALS) == "00000000" && Padded(1, DECIMALS + 1) == "000000001"
  {
    ZerosArePadding(DECIMALS);
    assert Padded(1, DECIMALS + 1) == Padded(0, DECIMALS) + "1";
  }

  lemma TinyQuotesParse()
    ensures ParseDecimal("1") == Some(Rat(1, 1))
    ensures ParseDecimal("0.000000001") == Some(Rat(1, 1_000_000_000))
  {
    assert Decimal(1) == "1";
    DigitsOfDecimal(1);
    ParseDecimalOf("1", "");
    assert Numeral("0", "000000001") == "0.000000001";
    ParseDecimalOf("0", "000000001");
    ABillionth();
  }

  lemma ABillionth()
    ensures DigitsValue("0" + "000000001") == 1 && Pow10(9) == 1_000_000_000
  {
    UnitIsPow10();
    assert Decimal(0) == "0";
    DigitsOfDecimal(0);
    Zeros();
    PaddedAppends("0", 1, DECIMALS + 1);
  }

  lemma TinyRatesPrint()
    ensures FloatString(Rat(1, 1)) == "1.00000000"
    ensures FloatString(Rat(1, 1_000_000_000)) == "0.00000000"
  {
    assert Ticks(Rat(1, 1)) == UNIT;
    TicksVanishIff(Rat(1, 1_000_000_000));
    Zeros();
    assert Decimal(0) == "0" && Decimal(1) == "1";
  }

  lemma TinyTableLists(c: string)
    ensures First(TINY_TABLE, c) ==
            if c == "CNY" then Some("0.00000000") else if c in SUPPORTED then Some("1.00000000") else None
  {
    var rows := TINY_TABLE;
    assert rows[3..][1..] == [] && First(rows[3..], c) == if c == "USD" then Some("1.00000000") else None;
    assert rows[2..][1..] == rows[3..];
    assert First(rows[2..], c) == if c == "EUR" then Some("1.00000000") else First(rows[3..], c);
    assert rows[1..][1..] == rows[2..];
    assert First(rows[1..], c) == if c == "CNY" then Some("0.00000000") else First(rows[2..], c);
    assert First(rows, c) == if c == "CAD" then Some("1.00000000") else First(rows[1..], c);
  }

  /** What three quotes on top of the euro say. */
  lemma ThreeQuotes(parse: Parser, one: string, tiny: string)
    requires parse(one) == Some(Rat(1, 1)) && parse(tiny) == Some(Rat(1, 1_000_000_000))
    ensures var cubes := [Cube("USD", one), Cube("CAD", one)] + [Cube("CNY", tiny)];
            && Quoted(parse, cubes)
            && forall c :: c in SUPPORTED ==>
                 UnitsPerUSD(parse, cubes, c) == if c == "CNY" then Rat(1, 1_000_000_000) else Rat(1, 1)
  {
    var usd, cad, cny := Cube("USD", one), Cube("CAD", one), Cube("CNY", tiny);
    LastQuoteDecides(parse, [], usd);
    LastQuoteDecides(parse, [usd], cad);
    LastQuoteDecides(parse, [usd, cad], cny);
    assert [] + [usd] == [usd] && [usd] + [cad] == [usd, cad];
  }

  /** From these quotes a refresh succeeds, with a table that lists the yuan at zero and so has no index. */
  lemma TinyQuoteBreaksIndex()
    ensures Quoted(ParseDecimal, TINY_QUOTES) && Tabulates(UnitsOf(ParseDecimal, TINY_QUOTES), TINY_TABLE)
    ensures forall rows :: Tabulates(UnitsOf(ParseDecimal, TINY_QUOTES), rows) ==> Index(ParseDecimal, rows).Err?
  {
    TinyQuotesParse();
    ThreeQuotes(ParseDecimal, "1", "0.000000001");
    TinyRatesPrint();
    var units := UnitsOf(ParseDecimal, TINY_QUOTES);
    forall c ensures First(TINY_TABLE, c) == if c in units then Some(FloatString(units[c])) else None {
      TinyTableLists(c);
    }
    forall rows | Tabulates(units, rows) ensures Index(ParseDecimal, rows).Err? {
      RefreshedTableIndexesIff(ParseDecimal, units, rows);
    }
  }
}
