/**
 The book summary: a fold over the book's entries, each converted to the reporting currency. Sums are
 64-bit and wrap. Times are nanoseconds since Go's zero time; 0 is an unset date filter.
 */
module Summary {
  import opened Wrappers
  import opened LedgerStore
  import opened Money

  const DAY: nat := 86_400_000_000_000

  /** The day after the one `date` falls in. */
  function NextDay(date: nat): nat { (date / DAY) * DAY + DAY }

  /** Inclusive start, exclusive end: the whole end day is included. */
  function NormalizeDateRange(startDate: nat, endDate: nat): (nat, nat) {
    (startDate, if endDate == 0 then 0 else NextDay(endDate))
  }

  predicate InRange(e: Entry, start: nat, end: nat) {
    (start == 0 || e.occurredAt >= start) && (end == 0 || e.occurredAt < end)
  }

  datatype Totals = Totals(
    incomeCents: int, expenseCents: int, refundCents: int, balanceCents: int, entryCount: int, transferCount: int)

  const ZERO := Totals(0, 0, 0, 0, 0, 0)

  function EntriesOf(es: seq<Entry>, bookID: string): (r: seq<Entry>)
    ensures forall e :: e in r <==> e in es && e.bookID == bookID
  {
    if es == [] then []
    else EntriesOf(es[..|es| - 1], bookID) + (if es[|es| - 1].bookID == bookID then [es[|es| - 1]] else [])
  }

  lemma EntriesOfNext(es: seq<Entry>, e: Entry, bookID: string)
    ensures EntriesOf(es + [e], bookID) == if e.bookID == bookID then EntriesOf(es, bookID) + [e] else EntriesOf(es, bookID)
  {
    assert (es + [e])[..|es|] == es;
  }

  lemma {:induction false} EntriesOfAppended(es: seq<Entry>, more: seq<Entry>, bookID: string)
    requires forall e :: e in more ==> e.bookID == bookID
    ensures EntriesOf(es + more, bookID) == EntriesOf(es, bookID) + more
  {
    if more == [] {
      assert es + more == es;
    } else {
      var n := |more| - 1;
      EntriesOfAppended(es, more[..n], bookID);
      EntriesOfNext(es + more[..n], more[n], bookID);
      Regroup(es, more);
      Regroup(EntriesOf(es, bookID), more);
    }
  }

  lemma Regroup(es: seq<Entry>, more: seq<Entry>)
    requires more != []
    ensures (es + more[..|more| - 1]) + [more[|more| - 1]] == es + more
  {}

  /** How an entry's amount is converted to the reporting currency. */
  type Conversion = Entry -> Result<int, MoneyError>

  /** The effect of one converted entry on the running summary. */
  function Posted(t: Totals, kind: EntryType, amount: int): Totals {
    var t := t.(entryCount := t.entryCount + 1);
    match kind
    case IncomeEntry | Borrow =>
      t.(incomeCents := ToInt64(t.incomeCents + amount), balanceCents := ToInt64(t.balanceCents + amount))
    case ExpenseEntry | Lend =>
      t.(expenseCents := ToInt64(t.expenseCents + amount), balanceCents := ToInt64(t.balanceCents - amount))
    case Refund | Reimbursement | Repayment =>
      t.(refundCents := ToInt64(t.refundCents + amount), balanceCents := ToInt64(t.balanceCents + amount))
    case Transfer => t.(transferCount := t.transferCount + 1)
    case OtherEntry(_) => t
  }

  lemma SumNext(es: seq<Entry>, i: nat, f: Entry -> Totals)
    requires i < |es|
    ensures Sum(es[..i + 1], f) == Plus(Sum(es[..i], f), f(es[i]))
  {
    assert es[..i + 1][..i] == es[..i];
  }

  /** One round of the loop: an entry in range is posted, another changes nothing. */
  lemma EntryNext(es: seq<Entry>, i: nat, convert: Conversion, start: nat, end: nat)
    requires i < |es|
    ensures AllConvert(es[..i + 1], convert, start, end) <==>
              AllConvert(es[..i], convert, start, end) && (InRange(es[i], start, end) ==> convert(es[i]).Ok?)
    ensures var f := Contributions(convert, start, end);
            var before, after := Wrapped(Sum(es[..i], f)), Wrapped(Sum(es[..i + 1], f));
            && (!InRange(es[i], start, end) ==> after == before)
            && (InRange(es[i], start, end) && convert(es[i]).Ok? ==>
                after == Posted(before, es[i].kind, convert(es[i]).value))
  {
    var f := Contributions(convert, start, end);
    assert es[..i + 1] == es[..i] + [es[i]];
    SumNext(es, i, f);
    if !InRange(es[i], start, end) {
      PlusZero(Sum(es[..i], f), Sum(es[..i], f), ZERO);
    } else if convert(es[i]).Ok? {
      PostedAdds(Sum(es[..i], f), es[i].kind, convert(es[i]).value);
    }
  }

  lemma FailsAt(es: seq<Entry>, i: nat, convert: Conversion, start: nat, end: nat)
    requires i < |es| && InRange(es[i], start, end) && convert(es[i]).Err?
    ensures !AllConvert(es, convert, start, end)
  {
    assert es[i] in es;
  }

  /** The loop of `BookSummary`. */
  method Summarize(es: seq<Entry>, convert: Conversion, start: nat, end: nat)
    returns (r: Result<Totals, LedgerError>)
    ensures r.Ok? <==> AllConvert(es, convert, start, end)
    ensures r.Ok? ==> r.value == Wrapped(Sum(es, Contributions(convert, start, end)))
  {
    var summary := ZERO;
    for i := 0 to |es|
      invariant AllConvert(es[..i], convert, start, end)
      invariant summary == Wrapped(Sum(es[..i], Contributions(convert, start, end)))
    {
      EntryNext(es, i, convert, start, end);
      if !InRange(es[i], start, end) {
        continue;
      }
      var converted := convert(es[i]);
      if converted.Err? {
        FailsAt(es, i, convert, start, end);
        return Err(InvalidInput);
      }
      summary := Posted(summary, es[i].kind, converted.value);
    }
    assert es[..|es|] == es;
    return Ok(summary);
  }

  // ---------------------------------------------------------------------------------------------
  // What the loop computes: a sum of contributions, cut to 64 bits once

  ghost predicate AllConvert(es: seq<Entry>, convert: Conversion, start: nat, end: nat) {
    forall e :: e in es && InRange(e, start, end) ==> convert(e).Ok?
  }

  function Plus(a: Totals, b: Totals): Totals {
    Totals(a.incomeCents + b.incomeCents, a.expenseCents + b.expenseCents, a.refundCents + b.refundCents,
           a.balanceCents + b.balanceCents, a.entryCount + b.entryCount, a.transferCount + b.transferCount)
  }

  /** What an entry of this kind and amount adds, without wrap-around. */
  function Signed(kind: EntryType, amount: int): Totals {
    match kind
    case IncomeEntry | Borrow => Totals(amount, 0, 0, amount, 1, 0)
    case ExpenseEntry | Lend => Totals(0, amount, 0, -amount, 1, 0)
    case Refund | Reimbursement | Repayment => Totals(0, 0, amount, amount, 1, 0)
    case Transfer => Totals(0, 0, 0, 0, 1, 1)
    case OtherEntry(_) => Totals(0, 0, 0, 0, 1, 0)
  }

  function Contribution(e: Entry, convert: Conversion, start: nat, end: nat): Totals {
    if InRange(e, start, end) && convert(e).Ok?
    then Signed(e.kind, convert(e).value)
    else ZERO
  }

  function Contributions(convert: Conversion, start: nat, end: nat): Entry -> Totals {
    e => Contribution(e, convert, start, end)
  }

  function Sum(es: seq<Entry>, f: Entry -> Totals): Totals {
    if es == [] then ZERO else Plus(Sum(es[..|es| - 1], f), f(es[|es| - 1]))
  }

  function Wrapped(t: Totals): Totals {
    Totals(ToInt64(t.incomeCents), ToInt64(t.expenseCents), ToInt64(t.refundCents), ToInt64(t.balanceCents),
           t.entryCount, t.transferCount)
  }

  lemma WrapAdds(x: int, y: int)
    ensures ToInt64(ToInt64(x) + y) == ToInt64(x + y)
    ensures ToInt64(ToInt64(x) + ToInt64(y)) == ToInt64(x + y)
  {
    var h, m := 0x8000_0000_0000_0000, 0x1_0000_0000_0000_0000;
    var q, q' := (x + h) / m, (y + h) / m;
    assert ToInt64(x) == x - q * m && ToInt64(y) == y - q' * m;
    ModShift(x + y + h, q, m);
    ModShift(x + y + h, q + q', m);
  }

  lemma ModShift(x: int, q: int, m: int)
    requires m > 0
    ensures (x - q * m) % m == x % m
  {
    var k, r := x / m, x % m;
    assert x - q * m == (k - q) * m + r;
    ModUnique(x - q * m, k - q, r, m);
  }

  lemma ModUnique(x: int, k: int, r: int, m: int)
    requires m > 0 && 0 <= r < m && x == k * m + r
    ensures x % m == r
  {
    var d := x / m - k;
    assert d * m == r - x % m;
    Spread(d, m);
  }

  lemma TotalsWrap(t: Totals, amount: int)
    ensures ToInt64(ToInt64(t.incomeCents) + amount) == ToInt64(t.incomeCents + amount)
    ensures ToInt64(ToInt64(t.expenseCents) + amount) == ToInt64(t.expenseCents + amount)
    ensures ToInt64(ToInt64(t.refundCents) + amount) == ToInt64(t.refundCents + amount)
    ensures ToInt64(ToInt64(t.balanceCents) + amount) == ToInt64(t.balanceCents + amount)
    ensures ToInt64(ToInt64(t.balanceCents) - amount) == ToInt64(t.balanceCents - amount)
  {
    WrapAdds(t.incomeCents, amount);
    WrapAdds(t.expenseCents, amount);
    WrapAdds(t.refundCents, amount);
    WrapAdds(t.balanceCents, amount);
    WrapAdds(t.balanceCents, -amount);
  }

  /** Cutting after every step is cutting once at the end. */
  lemma PostedAdds(t: Totals, kind: EntryType, amount: int)
    ensures Posted(Wrapped(t), kind, amount) == Wrapped(Plus(t, Signed(kind, amount)))
  {
    TotalsWrap(t, amount);
  }

  ghost predicate Balanced(t: Totals) {
    t.balanceCents == t.incomeCents + t.refundCents - t.expenseCents
  }

  lemma {:induction false} SumIsBalanced(es: seq<Entry>, f: Entry -> Totals)
    requires forall e :: Balanced(f(e))
    ensures Balanced(Sum(es, f))
  {
    if es != [] { SumIsBalanced(es[..|es| - 1], f); }
  }

  /** Conservation, wrap-around included: the balance is income plus refunds minus expenses. */
  lemma BalanceIsConserved(es: seq<Entry>, convert: Conversion, start: nat, end: nat)
    ensures BalancedInt64(Wrapped(Sum(es, Contributions(convert, start, end))))
  {
    ContributionsAreBalanced(convert, start, end);
    SumIsBalanced(es, Contributions(convert, start, end));
    WrapBalance(Sum(es, Contributions(convert, start, end)));
  }

  /** The same on reported figures. */
  ghost predicate BalancedInt64(t: Totals) {
    t.balanceCents == ToInt64(t.incomeCents + t.refundCents - t.expenseCents)
  }

  lemma ContributionsAreBalanced(convert: Conversion, start: nat, end: nat)
    ensures forall e :: Balanced(Contributions(convert, start, end)(e))
  {
    forall e ensures Balanced(Contributions(convert, start, end)(e)) {
      ContributionIsBalanced(e, convert, start, end);
    }
  }

  lemma ContributionIsBalanced(e: Entry, convert: Conversion, start: nat, end: nat)
    ensures Balanced(Contribution(e, convert, start, end))
  {}

  lemma WrapBalance(t: Totals)
    requires Balanced(t)
    ensures BalancedInt64(Wrapped(t))
  {
    WrapAdds(t.incomeCents, t.refundCents);
    WrapNegates(t.expenseCents, ToInt64(t.incomeCents) + ToInt64(t.refundCents), t.incomeCents + t.refundCents);
  }

  lemma WrapNegates(x: int, y: int, sum: int)
    requires ToInt64(y) == ToInt64(sum)
    ensures ToInt64(y - ToInt64(x)) == ToInt64(sum - x)
  {
    var h, m := 0x8000_0000_0000_0000, 0x1_0000_0000_0000_0000;
    var q := (x + h) / m;
    assert ToInt64(x) == x - q * m;
    assert y - ToInt64(x) + h == (y - x + h) - (-q) * m;
    ModShift(y - x + h, -q, m);
    WrapAdds(y, -x);
    WrapAdds(sum, -x);
  }

  lemma {:induction false} SumWithout(es: seq<Entry>, k: nat, f: Entry -> Totals)
    requires k < |es|
    ensures Sum(es, f) == Plus(Sum(es[..k] + es[k + 1..], f), f(es[k]))
  {
    var last := |es| - 1;
    if k == last {
      assert es[..k] + es[k + 1..] == es[..last];
    } else {
      SumWithout(es[..last], k, f);
      var less := es[..k] + es[k + 1..];
      assert less[..|less| - 1] == es[..last][..k] + es[..last][k + 1..];
    }
  }

  lemma {:induction false} SumIgnoresOrder(es: seq<Entry>, fs: seq<Entry>, f: Entry -> Totals)
    requires multiset(es) == multiset(fs)
    ensures Sum(es, f) == Sum(fs, f)
  {
    if es == [] {
      assert |multiset(es)| == 0 && |fs| == |multiset(fs)|;
    } else {
      var init, e := es[..|es| - 1], es[|es| - 1];
      assert e in multiset(fs);
      var k :| 0 <= k < |fs| && fs[k] == e;
      RemoveOne(es, |es| - 1);
      assert init == es[..|es| - 1] + es[|es|..];
      RemoveOne(fs, k);
      SumIgnoresOrder(init, fs[..k] + fs[k + 1..], f);
      SumWithout(fs, k, f);
    }
  }

  /** The order of the entries does not matter, for the figures or for whether there are any. */
  lemma SummaryIgnoresOrder(es: seq<Entry>, fs: seq<Entry>, convert: Conversion, start: nat, end: nat)
    requires multiset(es) == multiset(fs)
    ensures AllConvert(es, convert, start, end) <==> AllConvert(fs, convert, start, end)
    ensures var f := Contributions(convert, start, end); Sum(es, f) == Sum(fs, f)
  {
    assert forall e :: e in es <==> e in multiset(es);
    assert forall e :: e in fs <==> e in multiset(fs);
    SumIgnoresOrder(es, fs, Contributions(convert, start, end));
  }

  lemma RemoveOne(s: seq<Entry>, k: nat)
    requires k < |s|
    ensures multiset(s[..k] + s[k + 1..]) == multiset(s) - multiset{s[k]}
  {
    assert s == s[..k] + [s[k]] + s[k + 1..];
  }

  lemma {:induction false} SumSplits(es: seq<Entry>, f: Entry -> Totals, g: Entry -> Totals, h: Entry -> Totals)
    requires forall e :: f(e) == Plus(g(e), h(e))
    ensures Sum(es, f) == Plus(Sum(es, g), Sum(es, h))
  {
    if es != [] { SumSplits(es[..|es| - 1], f, g, h); }
  }

  /**
   Additivity. Cutting a period after any day m inside it, the summary of the whole is the sum of the
   summaries of start..m and of the day after m..end. An unset start or end is an open period.
   */
  lemma SummaryIsAdditive(es: seq<Entry>, convert: Conversion, startDate: nat, m: nat, endDate: nat)
    requires m != 0 && startDate <= NextDay(m) && (endDate == 0 || m / DAY <= endDate / DAY)
    ensures var (start, end) := NormalizeDateRange(startDate, endDate);
            var (start1, end1) := NormalizeDateRange(startDate, m);
            var (start2, end2) := NormalizeDateRange(NextDay(m), endDate);
            && Sum(es, Contributions(convert, start, end)) ==
               Plus(Sum(es, Contributions(convert, start1, end1)),
                    Sum(es, Contributions(convert, start2, end2)))
            && (AllConvert(es, convert, start, end) <==>
                AllConvert(es, convert, start1, end1) && AllConvert(es, convert, start2, end2))
  {
    var (start, end) := NormalizeDateRange(startDate, endDate);
    var cut := NextDay(m);
    var f, g, h := Contributions(convert, start, end),
                   Contributions(convert, start, cut), Contributions(convert, cut, end);
    forall e ensures f(e) == Plus(g(e), h(e)) { ContributionSplits(e, convert, start, cut, end); }
    SumSplits(es, f, g, h);
    forall e: Entry ensures InRange(e, start, end) <==> InRange(e, start, cut) || InRange(e, cut, end) {}
  }

  lemma ContributionSplits(e: Entry, convert: Conversion, start: nat, cut: nat, end: nat)
    requires cut != 0 && start <= cut && (end == 0 || cut <= end)
    ensures Contribution(e, convert, start, end) ==
            Plus(Contribution(e, convert, start, cut), Contribution(e, convert, cut, end))
  {
    var t, t1, t2 := Contribution(e, convert, start, end), Contribution(e, convert, start, cut), Contribution(e,
        convert, cut, end);
    assert (t1 == t && t2 == ZERO) || (t1 == ZERO && t2 == t);
    PlusZero(t, t1, t2);
  }

  lemma PlusZero(t: Totals, t1: Totals, t2: Totals)
    requires (t1 == t && t2 == ZERO) || (t1 == ZERO && t2 == t)
    ensures Plus(t1, t2) == t
  {}

  /** And so for the reported 64-bit figures. */
  lemma ReportedTotalsAdd(a: Totals, b: Totals)
    ensures Wrapped(Plus(Wrapped(a), Wrapped(b))) == Wrapped(Plus(a, b))
  {
    WrapAdds(a.incomeCents, b.incomeCents);
    WrapAdds(a.expenseCents, b.expenseCents);
    WrapAdds(a.refundCents, b.refundCents);
    WrapAdds(a.balanceCents, b.balanceCents);
  }

  // ---------------------------------------------------------------------------------------------
  // The figures, read off the entries

  /**
   The entries of a book that occurred at the start or later and on the day of the end or before. A date
   that is not set bounds nothing.
   */
  function Selected(es: seq<Entry>, bookID: string, startDate: nat, endDate: nat): seq<Entry> {
    if es == [] then []
    else
      var e := es[|es| - 1];
      Selected(es[..|es| - 1], bookID, startDate, endDate)
      + if && e.bookID == bookID && (startDate != 0 ==> startDate <= e.occurredAt)
           && (endDate != 0 ==> e.occurredAt / 86_400_000_000_000 <= endDate / 86_400_000_000_000)
        then [e] else []
  }

  /** The amounts of the entries of these kinds together. */
  function SumOf(es: seq<Entry>, kinds: set<EntryType>, amount: Entry -> int): int {
    if es == [] then 0
    else
      var e := es[|es| - 1];
      SumOf(es[..|es| - 1], kinds, amount) + if e.kind in kinds then amount(e) else 0
  }

  lemma {:induction false} SumOfConcat(a: seq<Entry>, b: seq<Entry>, kinds: set<EntryType>, amount: Entry -> int)
    ensures SumOf(a + b, kinds, amount) == SumOf(a, kinds, amount) + SumOf(b, kinds, amount)
  {
    if b == [] {
      assert a + b == a;
    } else {
      SumOfConcat(a, b[..|b| - 1], kinds, amount);
      assert (a + b)[..|a + b| - 1] == a + b[..|b| - 1];
    }
  }

  /** The unbounded figures of these entries. */
  ghost predicate Totalled(t: Totals, es: seq<Entry>, amount: Entry -> int) {
    && t.incomeCents == SumOf(es, {IncomeEntry, Borrow}, amount)
    && t.expenseCents == SumOf(es, {ExpenseEntry, Lend}, amount)
    && t.refundCents == SumOf(es, {Refund, Reimbursement, Repayment}, amount)
    && t.balanceCents == t.incomeCents + t.refundCents - t.expenseCents
    && t.entryCount == |es| && t.transferCount == SumOf(es, {Transfer}, e => 1)
  }

  /** The reported figures are these, cut to 64 bits. */
  ghost predicate Reports(t: Totals, es: seq<Entry>, amount: Entry -> int) {
    var (income, expense, refund) := (SumOf(es, {IncomeEntry, Borrow}, amount), SumOf(es, {ExpenseEntry, Lend}, amount),
                                      SumOf(es, {Refund, Reimbursement, Repayment}, amount));
    && IsLow64(t.incomeCents, income) && IsLow64(t.expenseCents, expense) && IsLow64(t.refundCents, refund)
    && IsLow64(t.balanceCents, income + refund - expense)
    && t.entryCount == |es| && t.transferCount == SumOf(es, {Transfer}, e => 1)
  }

  function AmountBy(convert: Conversion): Entry -> int {
    e => if convert(e).Ok? then convert(e).value else 0
  }

  lemma {:induction false} TotalsAreSums(es: seq<Entry>, bookID: string, convert: Conversion, startDate: nat, endDate: nat)
    requires var (start, end) := NormalizeDateRange(startDate, endDate);
             AllConvert(EntriesOf(es, bookID), convert, start, end)
    ensures var (start, end) := NormalizeDateRange(startDate, endDate);
            Totalled(Sum(EntriesOf(es, bookID), Contributions(convert, start, end)),
                     Selected(es, bookID, startDate, endDate), AmountBy(convert))
  {
    if es != [] {
      var (start, end) := NormalizeDateRange(startDate, endDate);
      var init, e := es[..|es| - 1], es[|es| - 1];
      assert es == init + [e];
      PartsConvert(init, e, bookID, convert, start, end);
      TotalsAreSums(init, bookID, convert, startDate, endDate);
      NextTotalled(init, e, bookID, convert, startDate, endDate);
    }
  }

  lemma PartsConvert(es: seq<Entry>, e: Entry, bookID: string, convert: Conversion, start: nat, end: nat)
    requires AllConvert(EntriesOf(es + [e], bookID), convert, start, end)
    ensures AllConvert(EntriesOf(es, bookID), convert, start, end)
    ensures e.bookID == bookID && InRange(e, start, end) ==> convert(e).Ok?
  {
    EntriesOfNext(es, e, bookID);
  }

  lemma NextTotalled(es: seq<Entry>, e: Entry, bookID: string, convert: Conversion, startDate: nat, endDate: nat)
    requires var (start, end) := NormalizeDateRange(startDate, endDate);
             && (e.bookID == bookID && InRange(e, start, end) ==> convert(e).Ok?)
             && Totalled(Sum(EntriesOf(es, bookID), Contributions(convert, start, end)),
                         Selected(es, bookID, startDate, endDate), AmountBy(convert))
    ensures var (start, end) := NormalizeDateRange(startDate, endDate);
            Totalled(Sum(EntriesOf(es + [e], bookID), Contributions(convert, start, end)),
                     Selected(es + [e], bookID, startDate, endDate), AmountBy(convert))
  {
    var (start, end) := NormalizeDateRange(startDate, endDate);
    var f := Contributions(convert, start, end);
    var mine, selected := EntriesOf(es, bookID), Selected(es, bookID, startDate, endDate);
    EntriesOfNext(es, e, bookID);
    SelectedNext(es, e, bookID, startDate, endDate);
    if e.bookID == bookID {
      SumAppended(mine, e, f);
      StepTotalled(Sum(mine, f), selected, e, convert, start, end);
    }
  }

  lemma StepTotalled(t: Totals, es: seq<Entry>, e: Entry, convert: Conversion, start: nat, end: nat)
    requires Totalled(t, es, AmountBy(convert)) && (InRange(e, start, end) ==> convert(e).Ok?)
    ensures Totalled(Plus(t, Contributions(convert, start, end)(e)), if InRange(e, start, end) then es + [e] else es,
                     AmountBy(convert))
  {
    if InRange(e, start, end) {
      OneMoreTotalled(t, es, e, AmountBy(convert));
    } else {
      PlusZero(t, t, ZERO);
    }
  }

  lemma SumAppended(es: seq<Entry>, e: Entry, f: Entry -> Totals)
    ensures Sum(es + [e], f) == Plus(Sum(es, f), f(e))
  {
    assert (es + [e])[..|es|] == es;
  }

  lemma SelectedNext(es: seq<Entry>, e: Entry, bookID: string, startDate: nat, endDate: nat)
    ensures var (start, end) := NormalizeDateRange(startDate, endDate);
            Selected(es + [e], bookID, startDate, endDate) ==
            if e.bookID == bookID && InRange(e, start, end) then Selected(es, bookID, startDate, endDate) + [e]
            else Selected(es, bookID, startDate, endDate)
  {
    RangeIsByDay(e, startDate, endDate);
    assert (es + [e])[..|es|] == es;
  }

  lemma RangeIsByDay(e: Entry, startDate: nat, endDate: nat)
    ensures var (start, end) := NormalizeDateRange(startDate, endDate);
            InRange(e, start, end) <==>
              && (startDate != 0 ==> startDate <= e.occurredAt)
              && (endDate != 0 ==> e.occurredAt / 86_400_000_000_000 <= endDate / 86_400_000_000_000)
  {}

  lemma {:induction false} SelectedAreInRange(es: seq<Entry>, bookID: string, startDate: nat, endDate: nat, e: Entry)
    requires e in Selected(es, bookID, startDate, endDate)
    ensures var (start, end) := NormalizeDateRange(startDate, endDate);
            e in EntriesOf(es, bookID) && InRange(e, start, end)
  {
    RangeIsByDay(e, startDate, endDate);
    if e in Selected(es[..|es| - 1], bookID, startDate, endDate) {
      SelectedAreInRange(es[..|es| - 1], bookID, startDate, endDate, e);
    }
  }

  lemma OneMoreTotalled(t: Totals, es: seq<Entry>, e: Entry, amount: Entry -> int)
    requires Totalled(t, es, amount)
    ensures Totalled(Plus(t, Signed(e.kind, amount(e))), es + [e], amount)
  {
    assert (es + [e])[..|es|] == es;
  }

  /** So what a summary reports are the sums of the selected entries by kind, cut to 64 bits. */
  lemma SummaryReports(es: seq<Entry>, bookID: string, convert: Conversion, startDate: nat, endDate: nat)
    requires var (start, end) := NormalizeDateRange(startDate, endDate);
             AllConvert(EntriesOf(es, bookID), convert, start, end)
    ensures var (start, end) := NormalizeDateRange(startDate, endDate);
            Reports(Wrapped(Sum(EntriesOf(es, bookID), Contributions(convert, start, end))),
                    Selected(es, bookID, startDate, endDate), AmountBy(convert))
  {
    var (start, end) := NormalizeDateRange(startDate, endDate);
    var t := Sum(EntriesOf(es, bookID), Contributions(convert, start, end));
    TotalsAreSums(es, bookID, convert, startDate, endDate);
    ToInt64Exact(t.incomeCents);
    ToInt64Exact(t.expenseCents);
    ToInt64Exact(t.refundCents);
    ToInt64Exact(t.balanceCents);
  }
}
