/**
 The exchange-rate table: stored rows are normalized to the first row of each supported currency and
 indexed as positive fractions. `parse` stands for `big.Rat.SetString`, whose grammar is not modelled.
 */
module Rates {
  import opened Wrappers
  import opened LedgerStore
  import opened Money
  import Text

  type Parser = string -> Option<Rat>

  const DEFAULTS: seq<ExchangeRate> := [
    ExchangeRate("USD", "1"), ExchangeRate("EUR", "0.85"), ExchangeRate("CNY", "7.20"), ExchangeRate("CAD", "1.36")]

  /** The first row for the currency. */
  function First(rows: seq<ExchangeRate>, currency: string): Option<string> {
    if rows == [] then None
    else if rows[0].currency == currency then Some(rows[0].unitsPerUSD)
    else First(rows[1..], currency)
  }

  lemma {:induction false} FirstOfAppended(rows: seq<ExchangeRate>, row: ExchangeRate, currency: string)
    ensures First(rows + [row], currency) ==
            if First(rows, currency).Some? then First(rows, currency)
            else if row.currency == currency then Some(row.unitsPerUSD) else None
  {
    if rows != [] {
      assert (rows + [row])[1..] == rows[1..] + [row];
      FirstOfAppended(rows[1..], row, currency);
    } else {
      assert [row][1..] == [];
      assert rows + [row] == [row];
    }
  }

  ghost predicate Distinct(rows: seq<ExchangeRate>) {
    forall i, j :: 0 <= i < j < |rows| ==> rows[i].currency != rows[j].currency
  }

  ghost predicate ByCurrency(rows: seq<ExchangeRate>) {
    forall i, j :: 0 <= i < j < |rows| ==> Text.LexAtMost(rows[i].currency, rows[j].currency)
  }

  /** The library sort; without repeated currencies there is only one result. */
  function Sorted(rows: seq<ExchangeRate>): seq<ExchangeRate> {
    if rows == [] then [] else Inserted(rows[0], Sorted(rows[1..]))
  }

  function Inserted(row: ExchangeRate, rows: seq<ExchangeRate>): seq<ExchangeRate> {
    if rows == [] || Text.LexAtMost(row.currency, rows[0].currency) then [row] + rows
    else [rows[0]] + Inserted(row, rows[1..])
  }

  lemma {:induction false} InsertedRows(row: ExchangeRate, rows: seq<ExchangeRate>)
    requires ByCurrency(rows) && Distinct(rows) && First(rows, row.currency).None?
    ensures ByCurrency(Inserted(row, rows)) && Distinct(Inserted(row, rows))
    ensures forall r :: r in Inserted(row, rows) <==> r == row || r in rows
    ensures forall c :: First(Inserted(row, rows), c) ==
              if c == row.currency then Some(row.unitsPerUSD) else First(rows, c)
  {
    NoneIsAbsent(rows, row.currency);
    if rows != [] && !Text.LexAtMost(row.currency, rows[0].currency) {
      var rest := Inserted(row, rows[1..]);
      InsertedRows(row, rows[1..]);
      Text.LexAtMostIsTotalOrder(rows[0].currency, row.currency, row.currency);
      forall k | 0 <= k < |rest| ensures Text.LexAtMost(rows[0].currency, rest[k].currency)
          && rest[k].currency != rows[0].currency {
        assert rest[k] in rest;
      }
      assert ([rows[0]] + rest)[1..] == rest;
    } else {
      forall k | 0 <= k < |rows| ensures Text.LexAtMost(row.currency, rows[k].currency) {
        Text.LexAtMostIsTotalOrder(row.currency, rows[0].currency, rows[k].currency);
        Text.LexAtMostIsTotalOrder(rows[0].currency, rows[0].currency, rows[0].currency);
      }
      assert ([row] + rows)[1..] == rows;
    }
  }

  lemma {:induction false} NoneIsAbsent(rows: seq<ExchangeRate>, c: string)
    ensures First(rows, c).None? <==> forall i :: 0 <= i < |rows| ==> rows[i].currency != c
  {
    if rows != [] { NoneIsAbsent(rows[1..], c); }
  }

  lemma {:induction false} SortedRows(rows: seq<ExchangeRate>)
    requires Distinct(rows)
    ensures ByCurrency(Sorted(rows)) && Distinct(Sorted(rows))
    ensures forall c :: First(Sorted(rows), c) == First(rows, c)
  {
    if rows != [] {
      SortedRows(rows[1..]);
      NoneIsAbsent(rows[1..], rows[0].currency);
      InsertedRows(rows[0], Sorted(rows[1..]));
    }
  }

  /** Keeps the first row of every supported currency, drops the rest, and sorts by currency. */
  method NormalizeExchangeRates(rows: seq<ExchangeRate>) returns (normalized: seq<ExchangeRate>)
    ensures forall c :: First(normalized, c) == if c in SUPPORTED then First(rows, c) else None
    ensures Distinct(normalized) && ByCurrency(normalized)
  {
    normalized := FirstRows(rows);
    SortedRows(normalized);
    normalized := Sorted(normalized);
  }

  method FirstRows(rows: seq<ExchangeRate>) returns (normalized: seq<ExchangeRate>)
    ensures forall c :: First(normalized, c) == if c in SUPPORTED then First(rows, c) else None
    ensures Distinct(normalized)
  {
    normalized := [];
    var seen: set<string> := {};
    for i := 0 to |rows|
      invariant Collected(rows[..i], normalized, seen)
    {
      var row := rows[i];
      CollectedNext(rows, i, normalized, seen);
      if row.currency in SUPPORTED && row.currency !in seen {
        seen := seen + {row.currency};
        normalized := normalized + [row];
      }
    }
    assert rows[..|rows|] == rows;
  }

  /** The first row of every supported currency so far, and which currencies these are. */
  ghost predicate Collected(rows: seq<ExchangeRate>, normalized: seq<ExchangeRate>, seen: set<string>) {
    && Distinct(normalized)
    && (forall c :: First(normalized, c) == if c in SUPPORTED then First(rows, c) else None)
    && (forall c :: c in seen <==> First(normalized, c).Some?)
  }

  lemma CollectedNext(rows: seq<ExchangeRate>, i: nat, normalized: seq<ExchangeRate>, seen: set<string>)
    requires i < |rows| && Collected(rows[..i], normalized, seen)
    ensures var row := rows[i];
            if row.currency in SUPPORTED && row.currency !in seen
            then Collected(rows[..i + 1], normalized + [row], seen + {row.currency})
            else Collected(rows[..i + 1], normalized, seen)
  {
    var row := rows[i];
    assert rows[..i + 1] == rows[..i] + [row];
    NoneIsAbsent(normalized, row.currency);
    forall c
      ensures First(rows[..i + 1], c) ==
              if First(rows[..i], c).Some? then First(rows[..i], c)
              else if row.currency == c then Some(row.unitsPerUSD) else None
      ensures First(normalized + [row], c) ==
              if First(normalized, c).Some? then First(normalized, c)
              else if row.currency == c then Some(row.unitsPerUSD) else None
    {
      FirstOfAppended(rows[..i], row, c);
      FirstOfAppended(normalized, row, c);
    }
  }

  /** The rows the service works from: the bootstrap table when none are stored. */
  function Effective(stored: seq<ExchangeRate>): seq<ExchangeRate> {
    if stored == [] then DEFAULTS else stored
  }

  predicate Listed(parse: Parser, rows: seq<ExchangeRate>, currency: string) {
    var text := First(rows, currency);
    text.Some? && parse(text.value).Some? && Positive(parse(text.value).value)
  }

  /** The index of a table that lists every supported currency with a positive rate. */
  function Index(parse: Parser, stored: seq<ExchangeRate>): (r: Result<Money.Rates, LedgerError>)
    ensures r.Ok? ==> Complete(r.value)
  {
    var rows := Effective(stored);
    if forall c :: c in SUPPORTED ==> Listed(parse, rows, c)
    then Ok(map c | c in SUPPORTED :: parse(First(rows, c).value).value)
    else Err(InvalidInput)
  }

  /** The first row of the currency is a positive number. */
  ghost predicate IsListed(parse: Parser, rows: seq<ExchangeRate>, c: string) {
    First(rows, c).Some? && parse(First(rows, c).value).Some?
    && parse(First(rows, c).value).value.num > 0 && parse(First(rows, c).value).value.den > 0
  }

  /** The index exists exactly when every supported currency is listed so, and holds these numbers. */
  lemma IndexIs(parse: Parser, stored: seq<ExchangeRate>)
    ensures var r, rows := Index(parse, stored), if stored == [] then DEFAULTS else stored;
            && (r.Ok? <==> forall c :: c in {"USD", "EUR", "CNY", "CAD"} ==> IsListed(parse, rows, c))
            && (r.Ok? ==>
                  && r.value.Keys == {"USD", "EUR", "CNY", "CAD"}
                  && forall c :: c in r.value ==> r.value[c] == parse(First(rows, c).value).value)
  {}

  method ExchangeRateIndex(parse: Parser, stored: seq<ExchangeRate>) returns (r: Result<Money.Rates, LedgerError>)
    ensures r == Index(parse, stored)
  {
    var rows := stored;
    if |rows| == 0 {
      rows := DEFAULTS;
    }
    var normalized := NormalizeExchangeRates(rows);
    var index: Money.Rates := map[];
    for i := 0 to |normalized|
      invariant Indexes(parse, normalized[..i], index)
    {
      var row := normalized[i];
      FirstIsUnique(normalized, i);
      var parsed := parse(row.unitsPerUSD);
      if parsed.None? || !Positive(parsed.value) {
        assert First(rows, row.currency) == Some(row.unitsPerUSD);
        return Err(InvalidInput);
      }
      IndexesNext(parse, normalized, i, index);
      index := index[row.currency := parsed.value];
    }
    assert normalized[..|normalized|] == normalized;
    if exists c :: c in SUPPORTED && c !in index {
      return Err(InvalidInput);
    }
    assert forall c :: c in SUPPORTED ==> First(normalized, c) == First(rows, c) && Listed(parse, rows, c);
    assert forall c :: c in index <==> c in SUPPORTED;
    assert index == map c | c in SUPPORTED :: parse(First(rows, c).value).value;
    return Ok(index);
  }

  /** The index holds the currencies the rows list, each at its positive rate. */
  ghost predicate Indexes(parse: Parser, rows: seq<ExchangeRate>, index: Money.Rates) {
    && (forall c :: c in index <==> First(rows, c).Some?)
    && (forall c :: c in index ==> Listed(parse, rows, c) && index[c] == parse(First(rows, c).value).value)
  }

  lemma IndexesNext(parse: Parser, rows: seq<ExchangeRate>, i: nat, index: Money.Rates)
    requires i < |rows| && First(rows[..i], rows[i].currency).None? && Indexes(parse, rows[..i], index)
    requires parse(rows[i].unitsPerUSD).Some? && Positive(parse(rows[i].unitsPerUSD).value)
    ensures Indexes(parse, rows[..i + 1], index[rows[i].currency := parse(rows[i].unitsPerUSD).value])
  {
    var index' := index[rows[i].currency := parse(rows[i].unitsPerUSD).value];
    forall c
      ensures c in index' <==> First(rows[..i + 1], c).Some?
      ensures c in index' ==> Listed(parse, rows[..i + 1], c) && index'[c] == parse(First(rows[..i + 1], c).value).value
    {
      FirstOfNext(rows, i, c);
    }
  }

  lemma FirstOfNext(rows: seq<ExchangeRate>, i: nat, c: string)
    requires i < |rows| && First(rows[..i], rows[i].currency).None?
    ensures First(rows[..i + 1], c) == if rows[i].currency == c then Some(rows[i].unitsPerUSD) else First(rows[..i], c)
  {
    assert rows[..i + 1] == rows[..i] + [rows[i]];
    FirstOfAppended(rows[..i], rows[i], c);
  }

  lemma FirstIsUnique(rows: seq<ExchangeRate>, i: nat)
    requires i < |rows| && forall i, j :: 0 <= i < j < |rows| ==> rows[i].currency != rows[j].currency
    ensures First(rows, rows[i].currency) == Some(rows[i].unitsPerUSD)
    ensures First(rows[..i], rows[i].currency).None?
  {
    FirstMissing(rows[..i], rows[i].currency);
    FirstAt(rows, i);
  }

  lemma {:induction false} FirstMissing(rows: seq<ExchangeRate>, c: string)
    requires forall i :: 0 <= i < |rows| ==> rows[i].currency != c
    ensures First(rows, c).None?
  {
    if rows != [] { FirstMissing(rows[1..], c); }
  }

  lemma {:induction false} FirstAt(rows: seq<ExchangeRate>, i: nat)
    requires i < |rows| && forall j :: 0 <= j < i ==> rows[j].currency != rows[i].currency
    ensures First(rows, rows[i].currency) == Some(rows[i].unitsPerUSD)
  {
    if i > 0 { FirstAt(rows[1..], i - 1); }
  }
}
