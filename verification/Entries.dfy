/**
 Entries and reports. An entry is stored only if it converts to the book's reporting currency, and
 that has to last: a later report uses whatever rates are stored then.

 Ids, currencies and rate texts are taken as already trimmed and upper-cased.
 */
module Entries {
  import opened Wrappers
  import opened LedgerStore
  import opened Money
  import opened Rates
  import opened Summary
  import Books
  import Seed
  import opened Text

  /** One call. `Create` carries the id it draws. `otherFields`: the update changes note, merchant or tags. */
  datatype Request =
    | Create(actor: string, bookID: string, id: string, creatorUserID: string, kind: EntryType,
             accountID: string, destinationAccountID: string, categoryID: string, amountCents: int,
             transactionCurrency: string, exchangeRate: string, occurredAt: nat)
    | Update(actor: string, bookID: string, id: string, newKind: Option<EntryType>,
             newAccountID: Option<string>, newDestinationAccountID: Option<string>, newCategoryID: Option<string>,
             newAmountCents: Option<int>, newTransactionCurrency: Option<string>,
             newExchangeRate: Option<string>, newOccurredAt: Option<nat>, otherFields: bool)
    | Delete(actor: string, bookID: string, id: string)

  // ---------------------------------------------------------------------------------------------
  // Lookups and policy

  function FirstAccount(accounts: seq<Account>, id: string): Option<Account> {
    if accounts == [] then None
    else if accounts[0].id == id then Some(accounts[0])
    else FirstAccount(accounts[1..], id)
  }

  function AccountByID(l: Ledger, id: string): Result<Account, LedgerError> {
    if id == "" then Err(InvalidInput)
    else match FirstAccount(l.accounts, id)
      case None => Err(NotFound)
      case Some(a) => Ok(a)
  }

  function VisibleAccount(l: Ledger, actor: string, bookID: string, id: string): Result<Account, LedgerError> {
    var a :- AccountByID(l, id);
    if a.userID == actor || bookID in a.sharedBookIDs then Ok(a) else Err(AccessDenied)
  }

  /** An unchanged account reference is not checked for visibility again. */
  function UpdateAccount(l: Ledger, actor: string, bookID: string, current: string, next: string, changed: bool)
    : Result<Account, LedgerError>
  {
    if changed || current != next then VisibleAccount(l, actor, bookID, next) else AccountByID(l, next)
  }

  function ActiveCategory(l: Ledger, bookID: string, id: string): Result<Option<Category>, LedgerError> {
    if id == "" then Ok(None)
    else
      var i := CategoryIndex(l.categories, bookID, id);
      if i == |l.categories| then Err(NotFound)
      else if l.categories[i].archived then Err(InvalidInput)
      else Ok(Some(l.categories[i]))
  }

  /** Who an entry is booked for: only owners and administrators may name someone else. */
  function Creator(l: Ledger, q: Request, member: BookMember): Result<string, LedgerError>
    requires q.Create?
  {
    if q.creatorUserID == "" || q.creatorUserID == q.actor then Ok(q.actor)
    else if !Manages(member) || MemberOf(l, q.bookID, q.creatorUserID).Err? then Err(AccessDenied)
    else Ok(q.creatorUserID)
  }

  /** The stored entry, if the actor may change it. */
  function Mutable(l: Ledger, actor: string, bookID: string, id: string): Result<Entry, LedgerError> {
    if actor == "" || bookID == "" || id == "" then Err(InvalidInput)
    else if MemberOf(l, bookID, actor).Err? then Err(AccessDenied)
    else
      var i, member := EntryIndex(l.entries, bookID, id), MemberOf(l, bookID, actor).value;
      if i == |l.entries| then Err(NotFound)
      else if Manages(member) || (member.role.Member? && l.entries[i].creatorUserID == actor) then Ok(l.entries[i])
      else Err(AccessDenied)
  }

  // ---------------------------------------------------------------------------------------------
  // Validation

  predicate CategoryFits(kind: EntryType, category: Option<Category>) {
    category.Some? ==>
      && (kind.ExpenseEntry? ==> category.value.direction.Expense?)
      && (kind.IncomeEntry? ==> category.value.direction.Income?)
  }

  /** The checks on an entry's final fields. Text lengths are left out. */
  predicate Valid(e: Entry, account: Account, category: Option<Category>, rates: Money.Rates) {
    && !e.kind.OtherEntry? && e.amountCents > 0 && e.occurredAt != 0
    && e.transactionCurrency in SUPPORTED && account.currency in SUPPORTED && e.bookReportingCurrency in SUPPORTED
    && ConvertAmountCents(e.amountCents, e.transactionCurrency, e.bookReportingCurrency, e.exchangeRate, rates).Ok?
    && ConvertAmountCents(e.amountCents, e.transactionCurrency, account.currency, e.exchangeRate, rates).Ok?
    && CategoryFits(e.kind, category)
    && (e.kind.Transfer? ==> e.destinationAccountID != "")
  }

  function Default(currency: string, account: Account): string {
    if currency == "" then account.currency else currency
  }

  // ---------------------------------------------------------------------------------------------
  // The use cases

  /** The entry a creation would store. */
  function Created(l: Ledger, q: Request, index: Result<Money.Rates, LedgerError>): Result<Entry, LedgerError>
    requires q.Create?
  {
    if q.actor == "" || q.bookID == "" then Err(InvalidInput)
    else if q.bookID !in l.books then Err(NotFound)
    else if MemberOf(l, q.bookID, q.actor).Err? then Err(AccessDenied)
    else if MemberOf(l, q.bookID, q.actor).value.role.Viewer? then Err(AccessDenied)
    else
      var creator :- Creator(l, q, MemberOf(l, q.bookID, q.actor).value);
      var account :- VisibleAccount(l, q.actor, q.bookID, q.accountID);
      if q.destinationAccountID != "" && VisibleAccount(l, q.actor, q.bookID, q.destinationAccountID).Err? then
        Err(VisibleAccount(l, q.actor, q.bookID, q.destinationAccountID).error)
      else
        var category :- ActiveCategory(l, q.bookID, q.categoryID);
        var rates :- index;
        var e := Entry(q.id, q.bookID, creator, q.kind, q.accountID, q.destinationAccountID, q.categoryID,
                       q.amountCents, Default(q.transactionCurrency, account), account.currency,
                       l.books[q.bookID].reportingCurrency, q.exchangeRate, q.occurredAt);
        if !Valid(e, account, category, rates) then Err(InvalidInput)
        else if exists i :: 0 <= i < |l.entries| && l.entries[i].id == q.id then Err(Conflict)
        else Ok(e)
  }

  function Patched(e: Entry, q: Request): Entry
    requires q.Update?
  {
    e.(kind := q.newKind.Or(e.kind), accountID := q.newAccountID.Or(e.accountID),
       destinationAccountID := q.newDestinationAccountID.Or(e.destinationAccountID),
       categoryID := q.newCategoryID.Or(e.categoryID), amountCents := q.newAmountCents.Or(e.amountCents),
       transactionCurrency := q.newTransactionCurrency.Or(e.transactionCurrency),
       exchangeRate := q.newExchangeRate.Or(e.exchangeRate), occurredAt := q.newOccurredAt.Or(e.occurredAt))
  }

  predicate HasFields(q: Request)
    requires q.Update?
  {
    || q.newKind.Some? || q.newAccountID.Some? || q.newDestinationAccountID.Some? || q.newCategoryID.Some?
    || q.newAmountCents.Some? || q.newTransactionCurrency.Some? || q.newExchangeRate.Some?
    || q.newOccurredAt.Some? || q.otherFields
  }

  /** The entry an update would store. */
  function Updated(l: Ledger, q: Request, index: Result<Money.Rates, LedgerError>): Result<Entry, LedgerError>
    requires q.Update?
  {
    if !HasFields(q) then Err(InvalidInput)
    else
      var e :- Mutable(l, q.actor, q.bookID, q.id);
      if q.bookID !in l.books then Err(NotFound)
      else
        var p := Patched(e, q);
        var account :- UpdateAccount(l, q.actor, q.bookID, e.accountID, p.accountID, q.newAccountID.Some?);
        var destination := UpdateAccount(l, q.actor, q.bookID, e.destinationAccountID, p.destinationAccountID,
                                         q.newDestinationAccountID.Some?);
        if p.destinationAccountID != "" && destination.Err? then Err(destination.error)
        else
          var category :- ActiveCategory(l, q.bookID, p.categoryID);
          var rates :- index;
          var final := p.(accountCurrency := account.currency,
                          bookReportingCurrency := l.books[q.bookID].reportingCurrency,
                          transactionCurrency := Default(p.transactionCurrency, account));
          if Valid(final, account, category, rates) then Ok(final) else Err(InvalidInput)
  }

  /** The entries after a call, when it succeeds. */
  function Edited(l: Ledger, q: Request, index: Result<Money.Rates, LedgerError>): Result<seq<Entry>, LedgerError> {
    match q
    case Create(_, _, _, _, _, _, _, _, _, _, _, _) =>
      var e :- Created(l, q, index);
      Ok(l.entries + [e])
    case Update(_, _, _, _, _, _, _, _, _, _, _, _) =>
      var e :- Updated(l, q, index);
      Ok(ReplaceEntry(l.entries, e))
    case Delete(actor, bookID, id) =>
      var _ :- Mutable(l, actor, bookID, id);
      Ok(RemoveEntry(l.entries, bookID, id))
  }

  method CreateEntry(store: MemoryStore, q: Request, parse: Parser) returns (r: Result<Entry, LedgerError>)
    requires q.Create?
    modifies store
    ensures r == Created(old(store.Contents()), q, Index(parse, old(store.rates)))
    ensures store.Contents() == old(store.Contents()).(entries :=
        if r.Ok? then old(store.entries) + [r.value] else old(store.entries))
    ensures r.Ok? ==>
              && MayCreate(old(store.Contents()), q) && exists a :: CreationFits(old(store.Contents()), q, a, r.value)
    ensures r.Ok? ==> forall i :: 0 <= i < |old(store.entries)| ==> old(store.entries)[i].id != q.id
  {
    ghost var l := store.Contents();
    if q.actor == "" || q.bookID == "" {
      return Err(InvalidInput);
    }
    if q.bookID !in store.books {
      return Err(NotFound);
    }
    var member := MemberOf(store.Contents(), q.bookID, q.actor);
    if member.Err? || member.value.role.Viewer? {
      return Err(AccessDenied);
    }
    var creatorUserID :- Creator(store.Contents(), q, member.value);
    var account :- VisibleAccount(store.Contents(), q.actor, q.bookID, q.accountID);
    if q.destinationAccountID != "" {
      var _ :- VisibleAccount(store.Contents(), q.actor, q.bookID, q.destinationAccountID);
    }
    var category :- ActiveCategory(store.Contents(), q.bookID, q.categoryID);
    var index := ExchangeRateIndex(parse, store.rates);
    var rates :- index;
    var entry := Entry(q.id, q.bookID, creatorUserID, q.kind, q.accountID, q.destinationAccountID, q.categoryID,
                       q.amountCents, Default(q.transactionCurrency, account), account.currency,
                       store.books[q.bookID].reportingCurrency, q.exchangeRate, q.occurredAt);
    if !Valid(entry, account, category, rates) {
      return Err(InvalidInput);
    }
    var _ :- store.CreateEntry(entry);
    CreatedIsRequested(l, q, parse);
    assert CreationFits(l, q, account, entry);
    return Ok(entry);
  }

  method UpdateEntry(store: MemoryStore, q: Request, parse: Parser) returns (r: Result<Entry, LedgerError>)
    requires q.Update?
    modifies store
    ensures r == Updated(old(store.Contents()), q, Index(parse, old(store.rates)))
    ensures store.Contents() == old(store.Contents()).(
                entries := if r.Ok? then ReplaceEntry(old(store.entries), r.value) else old(store.entries))
    ensures r.Ok? ==> GivesFields(q) && exists e, a :: UpdateFits(old(store.Contents()), q, e, a, r.value)
  {
    ghost var l := store.Contents();
    if !HasFields(q) {
      return Err(InvalidInput);
    }
    var entry :- Mutable(store.Contents(), q.actor, q.bookID, q.id);
    if q.bookID !in store.books {
      return Err(NotFound);
    }
    var patched := Patched(entry, q);
    var account :- UpdateAccount(store.Contents(), q.actor, q.bookID, entry.accountID, patched.accountID,
                                  q.newAccountID.Some?);
    if patched.destinationAccountID != "" {
      var _ :- UpdateAccount(store.Contents(), q.actor, q.bookID, entry.destinationAccountID,
                             patched.destinationAccountID, q.newDestinationAccountID.Some?);
    }
    var category :- ActiveCategory(store.Contents(), q.bookID, patched.categoryID);
    var index := ExchangeRateIndex(parse, store.rates);
    var rates :- index;
    patched := patched.(accountCurrency := account.currency,
                        bookReportingCurrency := store.books[q.bookID].reportingCurrency,
                        transactionCurrency := Default(patched.transactionCurrency, account));
    if !Valid(patched, account, category, rates) {
      return Err(InvalidInput);
    }
    var written := store.UpdateEntry(patched);
    UpdatedIsRequested(l, q, parse);
    return Ok(patched);
  }

  method DeleteEntry(store: MemoryStore, q: Request) returns (r: Result<(), LedgerError>)
    requires q.Delete?
    modifies store
    ensures r.Ok? <==> exists e :: MayChange(old(store.Contents()), q.actor, q.bookID, q.id, e)
    ensures store.Contents() == old(store.Contents()).(
                entries := if r.Ok? then RemoveEntry(old(store.entries), q.bookID, q.id) else old(store.entries))
  {
    var entry := Mutable(store.Contents(), q.actor, q.bookID, q.id);
    forall e { MutableIff(store.Contents(), q.actor, q.bookID, q.id, e); }
    var _ :- entry;
    r := store.DeleteEntry(q.bookID, q.id);
  }

  // ---------------------------------------------------------------------------------------------
  // What the calls do, read off the ledger and the request

  /** The first stored account with this id. */
  ghost predicate IsAccount(l: Ledger, id: string, a: Account) {
    id != "" && exists i :: 0 <= i < |l.accounts| && l.accounts[i] == a && a.id == id
                            && forall j :: 0 <= j < i ==> l.accounts[j].id != id
  }

  /** The actor owns the account, or it is shared with the book. */
  ghost predicate Sees(a: Account, actor: string, bookID: string) { a.userID == actor || bookID in a.sharedBookIDs }

  lemma {:induction false} FirstAccountIff(accounts: seq<Account>, id: string, a: Account)
    ensures FirstAccount(accounts, id) == Some(a) <==>
              exists i :: 0 <= i < |accounts| && accounts[i] == a && a.id == id
                          && forall j :: 0 <= j < i ==> accounts[j].id != id
  {
    if accounts != [] && accounts[0].id != id {
      FirstAccountIff(accounts[1..], id, a);
      if i :| 0 <= i < |accounts[1..]| && accounts[1..][i] == a && a.id == id
              && forall j :: 0 <= j < i ==> accounts[1..][j].id != id {
        assert accounts[i + 1] == a;
      }
      if i :| 0 <= i < |accounts| && accounts[i] == a && a.id == id && forall j :: 0 <= j < i ==> accounts[j].id != id {
        assert accounts[1..][i - 1] == a;
      }
    }
  }

  lemma AccountByIDIff(l: Ledger, id: string, a: Account)
    ensures AccountByID(l, id) == Ok(a) <==> IsAccount(l, id, a)
  {
    FirstAccountIff(l.accounts, id, a);
  }

  /** A category reference is empty, or names an active category of the book that suits the entry's kind. */
  ghost predicate Suits(l: Ledger, bookID: string, id: string, kind: EntryType) {
    id == "" ||
    var i := CategoryIndex(l.categories, bookID, id);
    && i < |l.categories| && !l.categories[i].archived
    && (kind == ExpenseEntry ==> l.categories[i].direction == Expense)
    && (kind == IncomeEntry ==> l.categories[i].direction == Income)
  }

  /** The entry's own fields are in order, and it converts to the currencies of its book and its account. */
  ghost predicate Storable(e: Entry) {
    && e.kind in {IncomeEntry, ExpenseEntry, Transfer, Refund, Reimbursement, Borrow, Lend, Repayment}
    && e.amountCents > 0 && e.occurredAt != 0
    && e.transactionCurrency in {"USD", "EUR", "CNY", "CAD"} && e.accountCurrency in {"USD", "EUR", "CNY", "CAD"}
    && e.bookReportingCurrency in {"USD", "EUR", "CNY", "CAD"}
    && Convertible(e.transactionCurrency, e.bookReportingCurrency, e.exchangeRate)
    && Convertible(e.transactionCurrency, e.accountCurrency, e.exchangeRate)
    && (e.kind == Transfer ==> e.destinationAccountID != "")
  }

  lemma ValidIff(l: Ledger, e: Entry, account: Account, category: Option<Category>, rates: Money.Rates)
    requires Complete(rates) && e.accountCurrency == account.currency
    requires ActiveCategory(l, e.bookID, e.categoryID) == Ok(category)
    ensures Valid(e, account, category, rates) <==> Storable(e) && Suits(l, e.bookID, e.categoryID, e.kind)
  {
    ConversionSucceedsIff(e.amountCents, e.transactionCurrency, e.bookReportingCurrency, e.exchangeRate, rates);
    ConversionSucceedsIff(e.amountCents, e.transactionCurrency, account.currency, e.exchangeRate, rates);
  }

  /** Who may book an entry: any member but a viewer; for someone else, a manager for another member. */
  ghost predicate MayCreate(l: Ledger, q: Request)
    requires q.Create?
  {
    && q.actor != "" && q.bookID in l.books && q.bookID != ""
    && q.bookID in l.members && q.actor in l.members[q.bookID] && l.members[q.bookID][q.actor].role != Viewer
    && (q.creatorUserID == "" || q.creatorUserID == q.actor
        || (IsManager(l, q.bookID, q.actor) && q.creatorUserID in l.members[q.bookID]))
  }

  /** The entry a creation asks for, booked on the account `a`. */
  ghost predicate IsNewEntry(l: Ledger, q: Request, a: Account, e: Entry)
    requires q.Create?
  {
    && e.id == q.id && e.bookID == q.bookID && e.kind == q.kind
    && e.creatorUserID == (if q.creatorUserID == "" then q.actor else q.creatorUserID)
    && e.accountID == q.accountID && e.destinationAccountID == q.destinationAccountID && e.categoryID == q.categoryID
    && e.amountCents == q.amountCents && e.occurredAt == q.occurredAt && e.exchangeRate == q.exchangeRate
    && e.transactionCurrency == (if q.transactionCurrency == "" then a.currency else q.transactionCurrency)
    && e.accountCurrency == a.currency
    && q.bookID in l.books && e.bookReportingCurrency == l.books[q.bookID].reportingCurrency
  }

  /** The accounts and the category the creation names are the actor's to use. */
  ghost predicate MayName(l: Ledger, q: Request, a: Account)
    requires q.Create?
  {
    && IsAccount(l, q.accountID, a) && Sees(a, q.actor, q.bookID)
    && (q.destinationAccountID != "" ==>
          exists d :: IsAccount(l, q.destinationAccountID, d) && Sees(d, q.actor, q.bookID))
    && Suits(l, q.bookID, q.categoryID, q.kind)
  }

  lemma VisibleIff(l: Ledger, actor: string, bookID: string, id: string, a: Account)
    ensures VisibleAccount(l, actor, bookID, id) == Ok(a) <==> IsAccount(l, id, a) && Sees(a, actor, bookID)
  {
    AccountByIDIff(l, id, a);
  }

  lemma VisibleExistsIff(l: Ledger, actor: string, bookID: string, id: string)
    ensures VisibleAccount(l, actor, bookID, id).Ok? <==>
              exists d :: IsAccount(l, id, d) && Sees(d, actor, bookID)
  {
    if VisibleAccount(l, actor, bookID, id).Ok? {
      VisibleIff(l, actor, bookID, id, VisibleAccount(l, actor, bookID, id).value);
    }
    if d :| IsAccount(l, id, d) && Sees(d, actor, bookID) { VisibleIff(l, actor, bookID, id, d); }
  }

  /** What a successful creation stores is the entry the request asks for. */
  lemma CreatedIsRequested(l: Ledger, q: Request, parse: Parser)
    requires q.Create? && Created(l, q, Index(parse, l.rates)).Ok?
    ensures var a, e := VisibleAccount(l, q.actor, q.bookID, q.accountID).value, Created(l, q, Index(parse, l.rates)).value;
            MayName(l, q, a) && IsNewEntry(l, q, a, e) && Storable(e) && MayCreate(l, q)
  {
    var index := Index(parse, l.rates);
    var a, e := VisibleAccount(l, q.actor, q.bookID, q.accountID).value, Created(l, q, index).value;
    VisibleIff(l, q.actor, q.bookID, q.accountID, a);
    if q.destinationAccountID != "" { VisibleExistsIff(l, q.actor, q.bookID, q.destinationAccountID); }
    ValidIff(l, e, a, ActiveCategory(l, q.bookID, q.categoryID).value, index.value);
  }

  lemma RequestedIsCreated(l: Ledger, q: Request, parse: Parser, a: Account, e: Entry)
    requires q.Create? && Index(parse, l.rates).Ok? && MayCreate(l, q) && MayName(l, q, a) && IsNewEntry(l, q, a, e)
    requires Storable(e) && forall i :: 0 <= i < |l.entries| ==> l.entries[i].id != q.id
    ensures Created(l, q, Index(parse, l.rates)) == Ok(e)
  {
    var index := Index(parse, l.rates);
    VisibleIff(l, q.actor, q.bookID, q.accountID, a);
    if q.destinationAccountID != "" { VisibleExistsIff(l, q.actor, q.bookID, q.destinationAccountID); }
    assert ActiveCategory(l, q.bookID, q.categoryID).Ok?;
    ValidIff(l, e, a, ActiveCategory(l, q.bookID, q.categoryID).value, index.value);
  }

  /** `e` is the entry the creation asks for, booked on the account `a`, and in order. */
  ghost predicate CreationFits(l: Ledger, q: Request, a: Account, e: Entry)
    requires q.Create?
  {
    MayName(l, q, a) && IsNewEntry(l, q, a, e) && Storable(e)
  }

  /** Exactly when a creation succeeds, in terms of the stored ledger and the request. */
  lemma CreateSucceedsIff(l: Ledger, q: Request, parse: Parser)
    requires q.Create?
    ensures Created(l, q, Index(parse, l.rates)).Ok? <==>
              && Index(parse, l.rates).Ok? && MayCreate(l, q)
              && (forall i :: 0 <= i < |l.entries| ==> l.entries[i].id != q.id)
              && exists a, e :: CreationFits(l, q, a, e)
  {
    var created := Created(l, q, Index(parse, l.rates));
    if created.Ok? {
      CreatedIsRequested(l, q, parse);
      assert CreationFits(l, q, VisibleAccount(l, q.actor, q.bookID, q.accountID).value, created.value);
    } else if Index(parse, l.rates).Ok? && MayCreate(l, q)
              && forall i :: 0 <= i < |l.entries| ==> l.entries[i].id != q.id {
      forall a, e | CreationFits(l, q, a, e) ensures false { RequestedIsCreated(l, q, parse, a, e); }
    }
  }

  /** The stored entry, and the actor manages the book or is a plain member who booked it. */
  ghost predicate MayChange(l: Ledger, actor: string, bookID: string, id: string, e: Entry) {
    && actor != "" && bookID != "" && id != ""
    && EntryIndex(l.entries, bookID, id) < |l.entries| && e == l.entries[EntryIndex(l.entries, bookID, id)]
    && bookID in l.members && actor in l.members[bookID]
    && (IsManager(l, bookID, actor) || (l.members[bookID][actor].role == Member && e.creatorUserID == actor))
  }

  lemma MutableIff(l: Ledger, actor: string, bookID: string, id: string, e: Entry)
    ensures Mutable(l, actor, bookID, id) == Ok(e) <==> MayChange(l, actor, bookID, id, e)
  {}

  /** The request gives some field. */
  ghost predicate GivesFields(q: Request)
    requires q.Update?
  {
    !(q.newKind == None && q.newAccountID == None && q.newDestinationAccountID == None && q.newCategoryID == None
      && q.newAmountCents == None && q.newTransactionCurrency == None && q.newExchangeRate == None
      && q.newOccurredAt == None && !q.otherFields)
  }

  /** The entry with the request's fields where it gives them, and as it was otherwise, booked on the account `a`. */
  ghost predicate IsChangedEntry(l: Ledger, q: Request, e: Entry, a: Account, e': Entry)
    requires q.Update?
  {
    && e'.id == e.id && e'.bookID == e.bookID && e'.creatorUserID == e.creatorUserID
    && e'.kind == (if q.newKind.Some? then q.newKind.value else e.kind)
    && e'.accountID == (if q.newAccountID.Some? then q.newAccountID.value else e.accountID)
    && e'.destinationAccountID ==
         (if q.newDestinationAccountID.Some? then q.newDestinationAccountID.value else e.destinationAccountID)
    && e'.categoryID == (if q.newCategoryID.Some? then q.newCategoryID.value else e.categoryID)
    && e'.amountCents == (if q.newAmountCents.Some? then q.newAmountCents.value else e.amountCents)
    && e'.exchangeRate == (if q.newExchangeRate.Some? then q.newExchangeRate.value else e.exchangeRate)
    && e'.occurredAt == (if q.newOccurredAt.Some? then q.newOccurredAt.value else e.occurredAt)
    && (var currency := if q.newTransactionCurrency.Some? then q.newTransactionCurrency.value else e.transactionCurrency;
        e'.transactionCurrency == if currency == "" then a.currency else currency)
    && e'.accountCurrency == a.currency
    && q.bookID in l.books && e'.bookReportingCurrency == l.books[q.bookID].reportingCurrency
  }

  /** The references of the changed entry exist, and those the request changes or names are the actor's to use. */
  ghost predicate MayRefer(l: Ledger, q: Request, e: Entry, a: Account, e': Entry)
    requires q.Update?
  {
    && IsAccount(l, e'.accountID, a)
    && (q.newAccountID != None || e'.accountID != e.accountID ==> Sees(a, q.actor, q.bookID))
    && (e'.destinationAccountID != "" ==>
          exists d ::
            && IsAccount(l, e'.destinationAccountID, d)
            && (q.newDestinationAccountID != None || e'.destinationAccountID != e.destinationAccountID ==>
                  Sees(d, q.actor, q.bookID)))
    && Suits(l, q.bookID, e'.categoryID, e'.kind)
  }

  lemma UpdateAccountIff(l: Ledger, actor: string, bookID: string, current: string, next: string, changed: bool, a: Account)
    ensures UpdateAccount(l, actor, bookID, current, next, changed) == Ok(a) <==>
              IsAccount(l, next, a) && (changed || current != next ==> Sees(a, actor, bookID))
  {
    VisibleIff(l, actor, bookID, next, a);
    AccountByIDIff(l, next, a);
  }

  lemma UpdateAccountExistsIff(l: Ledger, actor: string, bookID: string, current: string, next: string, changed: bool)
    ensures UpdateAccount(l, actor, bookID, current, next, changed).Ok? <==>
              exists d :: IsAccount(l, next, d) && (changed || current != next ==> Sees(d, actor, bookID))
  {
    var r := UpdateAccount(l, actor, bookID, current, next, changed);
    if r.Ok? { UpdateAccountIff(l, actor, bookID, current, next, changed, r.value); }
    if d :| IsAccount(l, next, d) && (changed || current != next ==> Sees(d, actor, bookID)) {
      UpdateAccountIff(l, actor, bookID, current, next, changed, d);
    }
  }

  /** What a successful update stores is the entry with the requested changes. */
  lemma UpdatedIsRequested(l: Ledger, q: Request, parse: Parser)
    requires q.Update? && Updated(l, q, Index(parse, l.rates)).Ok?
    ensures var e, e' := Mutable(l, q.actor, q.bookID, q.id).value, Updated(l, q, Index(parse, l.rates)).value;
            GivesFields(q) && exists a :: UpdateFits(l, q, e, a, e')
  {
    var index := Index(parse, l.rates);
    var e, e' := Mutable(l, q.actor, q.bookID, q.id).value, Updated(l, q, index).value;
    var p := Patched(e, q);
    var a := UpdateAccount(l, q.actor, q.bookID, e.accountID, p.accountID, q.newAccountID.Some?).value;
    MutableIff(l, q.actor, q.bookID, q.id, e);
    UpdateAccountIff(l, q.actor, q.bookID, e.accountID, p.accountID, q.newAccountID.Some?, a);
    UpdateAccountExistsIff(l, q.actor, q.bookID, e.destinationAccountID, p.destinationAccountID,
                           q.newDestinationAccountID.Some?);
    ValidIff(l, e', a, ActiveCategory(l, q.bookID, p.categoryID).value, index.value);
    assert UpdateFits(l, q, e, a, e');
  }

  lemma ChangedIsPatched(l: Ledger, q: Request, e: Entry, a: Account, e': Entry)
    requires q.Update? && q.bookID in l.books
    ensures HasFields(q) <==> GivesFields(q)
    ensures IsChangedEntry(l, q, e, a, e') <==>
            var p := Patched(e, q);
            e' == p.(accountCurrency := a.currency, bookReportingCurrency := l.books[q.bookID].reportingCurrency,
                     transactionCurrency := Default(p.transactionCurrency, a))
  {}

  /** The references resolve for the service, too. */
  lemma ReferencesResolve(l: Ledger, q: Request, e: Entry, a: Account, e': Entry)
    requires q.Update? && MayRefer(l, q, e, a, e')
    ensures UpdateAccount(l, q.actor, q.bookID, e.accountID, e'.accountID, q.newAccountID.Some?) == Ok(a)
    ensures e'.destinationAccountID != "" ==>
              UpdateAccount(l, q.actor, q.bookID, e.destinationAccountID, e'.destinationAccountID,
                            q.newDestinationAccountID.Some?).Ok?
    ensures ActiveCategory(l, q.bookID, e'.categoryID).Ok?
  {
    UpdateAccountIff(l, q.actor, q.bookID, e.accountID, e'.accountID, q.newAccountID.Some?, a);
    UpdateAccountExistsIff(l, q.actor, q.bookID, e.destinationAccountID, e'.destinationAccountID,
                           q.newDestinationAccountID.Some?);
  }

  lemma RequestedIsUpdated(l: Ledger, q: Request, parse: Parser, e: Entry, a: Account, e': Entry)
    requires q.Update? && Index(parse, l.rates).Ok? && GivesFields(q) && MayChange(l, q.actor, q.bookID, q.id, e)
    requires IsChangedEntry(l, q, e, a, e') && MayRefer(l, q, e, a, e') && Storable(e')
    ensures Updated(l, q, Index(parse, l.rates)) == Ok(e')
  {
    var p := Patched(e, q);
    MutableIff(l, q.actor, q.bookID, q.id, e);
    ChangedIsPatched(l, q, e, a, e');
    ReferencesResolve(l, q, e, a, e');
    ValidIff(l, e', a, ActiveCategory(l, q.bookID, e'.categoryID).value, Index(parse, l.rates).value);
  }

  /** `e'` is the stored entry `e` with the requested changes, booked on the account `a`, and in order. */
  ghost predicate UpdateFits(l: Ledger, q: Request, e: Entry, a: Account, e': Entry)
    requires q.Update?
  {
    && MayChange(l, q.actor, q.bookID, q.id, e)
    && IsChangedEntry(l, q, e, a, e') && MayRefer(l, q, e, a, e') && Storable(e')
  }

  /** Exactly when an update succeeds, in terms of the stored ledger and the request. */
  lemma UpdateSucceedsIff(l: Ledger, q: Request, parse: Parser)
    requires q.Update?
    ensures Updated(l, q, Index(parse, l.rates)).Ok? <==>
              && Index(parse, l.rates).Ok? && GivesFields(q)
              && exists e, a, e' :: UpdateFits(l, q, e, a, e')
  {
    if Updated(l, q, Index(parse, l.rates)).Ok? {
      UpdatedIsRequested(l, q, parse);
      var e, e' := Mutable(l, q.actor, q.bookID, q.id).value, Updated(l, q, Index(parse, l.rates)).value;
      var a :| UpdateFits(l, q, e, a, e');
    }
    forall e, a, e' | UpdateFits(l, q, e, a, e') && Index(parse, l.rates).Ok? && GivesFields(q)
      ensures Updated(l, q, Index(parse, l.rates)) == Ok(e')
    {
      RequestedIsUpdated(l, q, parse, e, a, e');
    }
  }

  // ---------------------------------------------------------------------------------------------
  // The report

  /** `entryAmountInCurrencyCents` for a fixed currency and table. */
  function ConvertTo(currency: string, rates: Money.Rates): Conversion {
    (e: Entry) => ConvertAmountCents(e.amountCents, e.transactionCurrency, currency, e.exchangeRate, rates)
  }

  method BookSummary(store: MemoryStore, parse: Parser, actor: string, bookID: string, startDate: nat, endDate: nat)
    returns (r: Result<Totals, LedgerError>)
    ensures var (start, end) := NormalizeDateRange(startDate, endDate);
            && (r.Ok? <==>
                  && actor != "" && bookID != "" && bookID in store.books
                  && MemberOf(store.Contents(), bookID, actor).Ok? && Index(parse, store.rates).Ok?
                  && AllConvert(EntriesOf(store.entries, bookID),
                                ConvertTo(store.books[bookID].reportingCurrency, Index(parse, store.rates).value),
                                    start, end))
            && (r.Ok? ==> r.value == Wrapped(Sum(EntriesOf(store.entries, bookID), Contributions(
                  ConvertTo(store.books[bookID].reportingCurrency, Index(parse, store.rates).value), start, end))))
    ensures r.Ok? ==>
              && bookID in store.members && actor in store.members[bookID] && bookID in store.books
              && Index(parse, store.rates).Ok?
              && ReportsIn(r.value, Selected(store.entries, bookID, startDate, endDate),
                           store.books[bookID].reportingCurrency, Index(parse, store.rates).value)
  {
    if actor == "" || bookID == "" {
      return Err(InvalidInput);
    }
    if bookID !in store.books {
      return Err(NotFound);
    }
    if MemberOf(store.Contents(), bookID, actor).Err? {
      return Err(AccessDenied);
    }
    var index := ExchangeRateIndex(parse, store.rates);
    var rates :- index;
    var (start, end) := NormalizeDateRange(startDate, endDate);
    r := Summarize(EntriesOf(store.entries, bookID), ConvertTo(store.books[bookID].reportingCurrency, rates), start, end);
    if r.Ok? {
      SummaryReportsIn(store.entries, bookID, store.books[bookID].reportingCurrency, rates, startDate, endDate);
    }
  }

  /** The figures are the sums of the entries' amounts by kind, each amount converted to the currency. */
  ghost predicate ReportsIn(t: Totals, es: seq<Entry>, currency: string, rates: Money.Rates) {
    exists amount: Entry -> int :: Reports(t, es, amount) && Amounts(es, currency, rates, amount)
  }

  ghost predicate Amounts(es: seq<Entry>, currency: string, rates: Money.Rates, amount: Entry -> int) {
    forall e :: e in es ==>
      ConvertAmountCents(e.amountCents, e.transactionCurrency, currency, e.exchangeRate, rates) == Ok(amount(e))
  }

  lemma SummaryReportsIn(es: seq<Entry>, bookID: string, currency: string, rates: Money.Rates, startDate: nat,
                         endDate: nat)
    requires var (start, end) := NormalizeDateRange(startDate, endDate);
             AllConvert(EntriesOf(es, bookID), ConvertTo(currency, rates), start, end)
    ensures var (start, end) := NormalizeDateRange(startDate, endDate);
            ReportsIn(Wrapped(Sum(EntriesOf(es, bookID), Contributions(ConvertTo(currency, rates), start, end))),
                      Selected(es, bookID, startDate, endDate), currency, rates)
  {
    var convert := ConvertTo(currency, rates);
    var selected := Selected(es, bookID, startDate, endDate);
    SummaryReports(es, bookID, convert, startDate, endDate);
    forall e | e in selected
      ensures ConvertAmountCents(e.amountCents, e.transactionCurrency, currency, e.exchangeRate, rates) ==
              Ok(AmountBy(convert)(e))
    {
      SelectedAreInRange(es, bookID, startDate, endDate, e);
    }
  }

  // ---------------------------------------------------------------------------------------------
  // Stored entries stay reportable

  /** The entry converts to the currency by any complete rate table. */
  ghost predicate Reportable(e: Entry, currency: string) {
    Convertible(e.transactionCurrency, currency, e.exchangeRate)
  }

  /** Every stored entry belongs to a book and is reportable in its currency. */
  ghost predicate AllReportable(l: Ledger) {
    forall e :: e in l.entries ==> e.bookID in l.books && Reportable(e, l.books[e.bookID].reportingCurrency)
  }

  lemma ValidIsReportable(e: Entry, account: Account, category: Option<Category>, rates: Money.Rates)
    requires Complete(rates) && Valid(e, account, category, rates)
    ensures Reportable(e, e.bookReportingCurrency)
  {
    ConversionSucceedsIff(e.amountCents, e.transactionCurrency, e.bookReportingCurrency, e.exchangeRate, rates);
  }

  /** What a successful creation or update stores, with the rates it was checked against. */
  lemma StoredIsReportable(l: Ledger, q: Request, parse: Parser)
    requires !q.Delete? && Edited(l, q, Index(parse, l.rates)).Ok?
    ensures q.bookID in l.books
    ensures var index := Index(parse, l.rates);
            var e := if q.Create? then Created(l, q, index).value else Updated(l, q, index).value;
            e.bookID == q.bookID && Reportable(e, l.books[q.bookID].reportingCurrency)
  {
    var index := Index(parse, l.rates);
    if q.Create? {
      var account := VisibleAccount(l, q.actor, q.bookID, q.accountID).value;
      var category := ActiveCategory(l, q.bookID, q.categoryID).value;
      ValidIsReportable(Created(l, q, index).value, account, category, index.value);
    } else {
      var e := Mutable(l, q.actor, q.bookID, q.id).value;
      var p := Patched(e, q);
      var account := UpdateAccount(l, q.actor, q.bookID, e.accountID, p.accountID, q.newAccountID.Some?).value;
      var category := ActiveCategory(l, q.bookID, p.categoryID).value;
      ValidIsReportable(Updated(l, q, index).value, account, category, index.value);
    }
  }

  /** One step of a run: an entry call, a replacement of the rate table, or a call on books. */
  datatype Step =
    | OnEntry(call: Request)
    | ReplaceRates(rates: seq<ExchangeRate>)
    | OnBook(request: Books.Request)

  ghost predicate KeepsCurrency(s: Step) {
    s.OnBook? && s.request.SetBook? ==> s.request.newCurrency.None?
  }

  ghost function Do(l: Ledger, s: Step, parse: Parser, specs: seq<Seed.CategorySpec>): (l': Ledger)
    requires Books.Owned(l)
    ensures Books.Owned(l')
  {
    match s
    case OnEntry(q) =>
      var edited := Edited(l, q, Index(parse, l.rates));
      if edited.Ok? then l.(entries := edited.value) else l
    case ReplaceRates(rates) => l.(rates := rates)
    case OnBook(q) =>
      Books.CallKeepsOwners(l, q, specs);
      Books.Last(l, Books.Writes(l, q, specs))
  }

  ghost function After(l: Ledger, run: seq<Step>, parse: Parser, specs: seq<Seed.CategorySpec>): (l': Ledger)
    requires Books.Owned(l)
    ensures Books.Owned(l')
  {
    if run == [] then l else Do(After(l, run[..|run| - 1], parse, specs), run[|run| - 1], parse, specs)
  }

  lemma EntryCallKeepsReports(l: Ledger, q: Request, parse: Parser)
    requires AllReportable(l) && Edited(l, q, Index(parse, l.rates)).Ok?
    ensures AllReportable(l.(entries := Edited(l, q, Index(parse, l.rates)).value))
  {
    if !q.Delete? { StoredIsReportable(l, q, parse); }
  }

  /** Entries, books and reporting currencies are as before, but for books added. */
  ghost predicate SameCurrencies(l: Ledger, l': Ledger) {
    && l'.entries == l.entries
    && forall b :: b in l.books ==> b in l'.books && l'.books[b].reportingCurrency == l.books[b].reportingCurrency
  }

  lemma RewritingKeepsCurrencies(l: Ledger, first: Ledger, book: Book, owner: Option<string>)
    requires first.books == l.books && first.entries == l.entries && book.id in l.books && l.books[book.id] == book
    ensures SameCurrencies(l, Books.Last(l, [first] + Books.PointBook(first, book, owner)))
  {
    if owner.Some? {
      var second := WithBook(first, book.(ownerUserID := owner.value));
      assert [first] + Books.PointBook(first, book, owner) == [first, second];
      assert SameCurrencies(l, second);
    } else {
      assert [first] + Books.PointBook(first, book, owner) == [first];
    }
  }

  lemma RoleChangeKeepsCurrencies(l: Ledger, q: Books.Request)
    requires Books.Owned(l) && q.SetRole?
    ensures SameCurrencies(l, Books.Last(l, Books.Change(l, q).writes))
  {
    var found := Books.Target(l, q.actor, q.bookID, q.userID, Books.Supported(q.role), !q.role.Owner?);
    if found.Ok? {
      var (book, target) := found.value;
      RewritingKeepsCurrencies(l, WithMember(l, target.(role := q.role)), book,
                               Books.Reconciled(l.members[q.bookID], book.ownerUserID, target, q.role));
    }
  }

  lemma RemovalKeepsCurrencies(l: Ledger, q: Books.Request)
    requires Books.Owned(l) && q.RemoveMember?
    ensures SameCurrencies(l, Books.Last(l, Books.Remove(l, q).writes))
  {
    var found := Books.Target(l, q.actor, q.bookID, q.userID, true, true);
    if found.Ok? {
      var (book, target) := found.value;
      RewritingKeepsCurrencies(l, WithoutMember(l, q.bookID, q.userID), book,
                               Books.Reconciled(l.members[q.bookID], book.ownerUserID, target, Viewer));
    }
  }

  lemma SettingsKeepCurrencies(l: Ledger, q: Books.Request)
    requires Books.Owned(l) && q.SetBook? && q.newCurrency.None?
    ensures SameCurrencies(l, Books.Last(l, Books.Settings(l, q).writes))
  {}

  /** A call on books that changes no reporting currency keeps books and their currencies. */
  lemma BookCallKeepsCurrencies(l: Ledger, q: Books.Request, specs: seq<Seed.CategorySpec>)
    requires Books.Owned(l) && KeepsCurrency(OnBook(q))
    ensures SameCurrencies(l, Books.Last(l, Books.Writes(l, q, specs)))
  {
    match q
    case SetRole(_, _, _, _) => RoleChangeKeepsCurrencies(l, q);
    case RemoveMember(_, _, _) => RemovalKeepsCurrencies(l, q);
    case SetBook(_, _, _, _) => SettingsKeepCurrencies(l, q);
    case _ =>
  }

  lemma StepKeepsReports(l: Ledger, s: Step, parse: Parser, specs: seq<Seed.CategorySpec>)
    requires Books.Owned(l) && AllReportable(l) && KeepsCurrency(s)
    ensures AllReportable(Do(l, s, parse, specs))
  {
    match s
    case OnEntry(q) =>
      if Edited(l, q, Index(parse, l.rates)).Ok? { EntryCallKeepsReports(l, q, parse); }
    case ReplaceRates(_) =>
    case OnBook(q) => BookCallKeepsCurrencies(l, q, specs);
  }

  /** In every run without a change of reporting currency all stored entries stay reportable. */
  lemma {:induction false} RunKeepsReports(l: Ledger, run: seq<Step>, parse: Parser, specs: seq<Seed.CategorySpec>)
    requires Books.Owned(l) && AllReportable(l)
    requires forall i :: 0 <= i < |run| ==> KeepsCurrency(run[i])
    ensures AllReportable(After(l, run, parse, specs))
  {
    if run != [] {
      RunKeepsReports(l, run[..|run| - 1], parse, specs);
      StepKeepsReports(After(l, run[..|run| - 1], parse, specs), run[|run| - 1], parse, specs);
    }
  }

  /** So a summary never fails on a conversion, whatever rates are stored when it is asked for. */
  lemma ReportableSummariesConvert(l: Ledger, bookID: string, rates: Money.Rates, start: nat, end: nat)
    requires AllReportable(l) && bookID in l.books && Complete(rates)
    ensures AllConvert(EntriesOf(l.entries, bookID), ConvertTo(l.books[bookID].reportingCurrency, rates), start, end)
  {
    var es, currency := EntriesOf(l.entries, bookID), l.books[bookID].reportingCurrency;
    forall e | e in es ensures ConvertTo(currency, rates)(e).Ok? {
      ConversionSucceedsIff(e.amountCents, e.transactionCurrency, currency, e.exchangeRate, rates);
    }
  }

  /** The book call that sets a reporting currency. */
  function SetCurrency(actor: string, bookID: string, currency: string): Books.Request {
    Books.SetBook(actor, bookID, None, Some(currency))
  }

  /** The entry is in the currency, names no rate, or names a rate between its own currency and this one. */
  ghost predicate FollowsTo(e: Entry, currency: string) {
    || e.transactionCurrency == currency
    || e.exchangeRate == ""
    || IsRateBetween(e.exchangeRate, e.transactionCurrency, currency)
  }

  lemma CurrencyChangeSetsCurrency(l: Ledger, actor: string, bookID: string, currency: string, parse: Parser,
                                   specs: seq<Seed.CategorySpec>)
    requires Books.Owned(l) && Books.Settings(l, SetCurrency(actor, bookID, currency)).result.Ok?
    ensures bookID in l.books && currency in SUPPORTED
    ensures Do(l, OnBook(SetCurrency(actor, bookID, currency)), parse, specs) ==
            WithBook(l, l.books[bookID].(reportingCurrency := currency))
  {
    Books.CallKeepsOwners(l, SetCurrency(actor, bookID, currency), specs);
  }

  lemma FollowersAreReportable(l: Ledger, currency: string)
    requires AllReportable(l) && currency in SUPPORTED
    ensures forall e :: e in l.entries ==> (Reportable(e, currency) <==> FollowsTo(e, currency))
  {}

  /**
   Changing the reporting currency is the one call that can end this. From a state in which everything is
   reportable, a successful change keeps it so exactly when each of the book's entries is in the new
   currency, names no rate, or names a rate between its own currency and the new one.
   */
  lemma CurrencyChangeKeepsReportsIff(l: Ledger, actor: string, bookID: string, currency: string, parse: Parser,
                                      specs: seq<Seed.CategorySpec>)
    requires Books.Owned(l) && AllReportable(l) && Books.Settings(l, SetCurrency(actor, bookID, currency)).result.Ok?
    ensures AllReportable(Do(l, OnBook(SetCurrency(actor, bookID, currency)), parse, specs)) <==>
            forall e :: e in l.entries && e.bookID == bookID ==> FollowsTo(e, currency)
  {
    CurrencyChangeSetsCurrency(l, actor, bookID, currency, parse, specs);
    FollowersAreReportable(l, currency);
  }

  /** And by any complete table the book's unfiltered summary after the change succeeds under the same condition. */
  lemma ChangedSummaryConvertsIff(l: Ledger, actor: string, bookID: string, currency: string, parse: Parser,
                                  specs: seq<Seed.CategorySpec>, rates: Money.Rates)
    requires Books.Owned(l) && AllReportable(l) && Books.Settings(l, SetCurrency(actor, bookID, currency)).result.Ok?
    requires Complete(rates)
    ensures var l' := Do(l, OnBook(SetCurrency(actor, bookID, currency)), parse, specs);
            && bookID in l'.books
            && (AllConvert(EntriesOf(l'.entries, bookID), ConvertTo(l'.books[bookID].reportingCurrency, rates), 0, 0)
                <==> forall e :: e in l.entries && e.bookID == bookID ==> FollowsTo(e, currency))
  {
    CurrencyChangeSetsCurrency(l, actor, bookID, currency, parse, specs);
    FollowersAreReportable(l, currency);
    forall e: Entry ensures ConvertTo(currency, rates)(e).Ok? <==> Reportable(e, currency) {
      ConversionSucceedsIff(e.amountCents, e.transactionCurrency, currency, e.exchangeRate, rates);
    }
    assert forall e :: e in EntriesOf(l.entries, bookID) <==> e in l.entries && e.bookID == bookID;
  }

  /** For one: a book in dollars with one entry of a euro at a EUR/USD rate. */
  function EuroLedger(actor: string, bookID: string): Ledger {
    Ledger(map[bookID := Book(bookID, actor, "Home", "USD")],
           map[bookID := map[actor := BookMember(bookID, actor, Owner, actor)]],
           [Entry("e", bookID, actor, ExpenseEntry, "a", "", "", 100, "EUR", "EUR", "USD", "EUR/USD=2", 1)],
           [], [], [])
  }

  /** Everything in it is reportable until its owner switches the book to Canadian dollars. */
  lemma CurrencyChangeCanBreakReports(actor: string, bookID: string, parse: Parser, specs: seq<Seed.CategorySpec>)
    requires actor != "" && bookID != ""
    ensures var l := EuroLedger(actor, bookID);
            && Books.Owned(l) && AllReportable(l)
            && Books.Settings(l, SetCurrency(actor, bookID, "CAD")).result.Ok?
            && !AllReportable(Do(l, OnBook(SetCurrency(actor, bookID, "CAD")), parse, specs))
  {
    var l := EuroLedger(actor, bookID);
    EuroRateIsForDollars();
    assert Books.IsOwner(l, bookID, actor);
    assert l.entries[0] in l.entries;
    CurrencyChangeKeepsReportsIff(l, actor, bookID, "CAD", parse, specs);
  }

  lemma EuroRateIsForDollars()
    ensures Convertible("EUR", "USD", "EUR/USD=2") && !Convertible("EUR", "CAD", "EUR/USD=2")
  {
    assert AllDigits("2") && DigitsValue("2" + "") == 2;
    ParseUndoesRateText("EUR", "USD", "2", "");
    assert RateText("EUR", "USD", "2", "") == "EUR/USD=2";
  }
}
