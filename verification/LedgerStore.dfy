/**
 The ledger's entities and its in-memory store. `Ledger` is the store's contents as a value; the use
 cases are specified as functions on it, and the store's ghost log keeps the contents after every
 single write. Creation and update times are not modelled.
 */
module LedgerStore {
  import opened Wrappers

  datatype Role = Owner | Administrator | Member | Viewer | OtherRole(name: string)

  datatype Direction = Income | Expense | OtherDirection(name: string)

  datatype EntryType =
    | IncomeEntry | ExpenseEntry | Transfer | Refund | Reimbursement | Borrow | Lend | Repayment
    | OtherEntry(name: string)

  datatype Book = Book(id: string, ownerUserID: string, name: string, reportingCurrency: string)

  datatype BookMember = BookMember(bookID: string, userID: string, role: Role, displayName: string)

  datatype Category = Category(
    id: string, bookID: string, parentID: string, name: string, direction: Direction,
    sortOrder: int, archived: bool, rawSourceName: string)

  datatype Account = Account(id: string, userID: string, name: string, currency: string, sharedBookIDs: seq<string>)

  datatype Entry = Entry(
    id: string, bookID: string, creatorUserID: string, kind: EntryType,
    accountID: string, destinationAccountID: string, categoryID: string,
    amountCents: int, transactionCurrency: string, accountCurrency: string,
    bookReportingCurrency: string, exchangeRate: string, occurredAt: nat)

  datatype ExchangeRate = ExchangeRate(currency: string, unitsPerUSD: string)

  type Members = map<string, map<string, BookMember>>

  datatype Ledger = Ledger(
    books: map<string, Book>,
    members: Members,                // by book id, then by user id
    entries: seq<Entry>,
    categories: seq<Category>,
    accounts: seq<Account>,
    rates: seq<ExchangeRate>)

  datatype LedgerError = InvalidInput | AccessDenied | NotFound | Conflict | CategoryCycle

  // ---------------------------------------------------------------------------------------------
  // Lookups

  function MemberOf(l: Ledger, bookID: string, userID: string): Result<BookMember, LedgerError> {
    if bookID in l.members && userID in l.members[bookID] then Ok(l.members[bookID][userID]) else Err(NotFound)
  }

  predicate Manages(m: BookMember) { m.role.Owner? || m.role.Administrator? }

  /** The user is a member of the book with the role of an owner or an administrator. */
  ghost predicate IsManager(l: Ledger, bookID: string, userID: string) {
    && bookID in l.members && userID in l.members[bookID]
    && (l.members[bookID][userID].role == Owner || l.members[bookID][userID].role == Administrator)
  }

  function CategoriesOf(cs: seq<Category>, bookID: string): (r: seq<Category>)
    ensures forall c :: c in r <==> c in cs && c.bookID == bookID
  {
    if cs == [] then []
    else (if cs[0].bookID == bookID then [cs[0]] else []) + CategoriesOf(cs[1..], bookID)
  }

  // ---------------------------------------------------------------------------------------------
  // Writes, as functions of the contents

  predicate HasCategoryId(cs: seq<Category>, id: string) {
    exists i :: 0 <= i < |cs| && cs[i].id == id
  }

  predicate DistinctCategoryIds(cs: seq<Category>) {
    forall i, j :: 0 <= i < j < |cs| ==> cs[i].id != cs[j].id
  }

  /** The ids of `added` are new, distinct, and all of one book. */
  predicate CanAddCategories(l: Ledger, bookID: string, added: seq<Category>) {
    && (forall i :: 0 <= i < |added| ==> added[i].bookID == bookID && !HasCategoryId(l.categories, added[i].id))
    && DistinctCategoryIds(added)
  }

  function WithMember(l: Ledger, m: BookMember): Ledger {
    var inBook := if m.bookID in l.members then l.members[m.bookID] else map[];
    l.(members := l.members[m.bookID := inBook[m.userID := m]])
  }

  function WithBook(l: Ledger, b: Book): Ledger {
    l.(books := l.books[b.id := b])
  }

  function WithoutMember(l: Ledger, bookID: string, userID: string): Ledger
    requires bookID in l.members
  {
    l.(members := l.members[bookID := l.members[bookID] - {userID}])
  }

  function AddBook(l: Ledger, b: Book, owner: BookMember, cs: seq<Category>): Result<Ledger, LedgerError> {
    if b.id in l.books || b.id != owner.bookID || MemberOf(l, b.id, owner.userID).Ok?
       || !CanAddCategories(l, b.id, cs)
    then Err(Conflict)
    else Ok(WithMember(WithBook(l, b), owner).(categories := l.categories + cs))
  }

  /** `slices.IndexFunc` for a category: the length when there is none. */
  function CategoryIndex(cs: seq<Category>, bookID: string, id: string): (i: nat)
    ensures i <= |cs|
    ensures i < |cs| ==> cs[i].bookID == bookID && cs[i].id == id
    ensures forall j :: 0 <= j < i ==> cs[j].bookID != bookID || cs[j].id != id
  {
    if cs == [] || (cs[0].bookID == bookID && cs[0].id == id) then 0 else 1 + CategoryIndex(cs[1..], bookID, id)
  }

  function ReplaceCategory(cs: seq<Category>, c: Category): seq<Category> {
    var i := CategoryIndex(cs, c.bookID, c.id);
    if i < |cs| then cs[i := c] else cs
  }

  /** `slices.IndexFunc` for an entry: the length when there is none. */
  function EntryIndex(es: seq<Entry>, bookID: string, id: string): (i: nat)
    ensures i <= |es|
    ensures i < |es| ==> es[i].bookID == bookID && es[i].id == id
    ensures forall j :: 0 <= j < i ==> es[j].bookID != bookID || es[j].id != id
  {
    if es == [] || (es[0].bookID == bookID && es[0].id == id) then 0 else 1 + EntryIndex(es[1..], bookID, id)
  }

  function ReplaceEntry(es: seq<Entry>, e: Entry): seq<Entry> {
    var i := EntryIndex(es, e.bookID, e.id);
    if i < |es| then es[i := e] else es
  }

  function RemoveEntry(es: seq<Entry>, bookID: string, id: string): seq<Entry> {
    var i := EntryIndex(es, bookID, id);
    if i < |es| then es[..i] + es[i + 1..] else es
  }

  // ---------------------------------------------------------------------------------------------
  // The store

  class MemoryStore {
    var books: map<string, Book>
    var members: Members
    var entries: seq<Entry>
    var categories: seq<Category>
    var accounts: seq<Account>
    var rates: seq<ExchangeRate>
    /** The contents after each write, oldest first. */
    ghost var log: seq<Ledger>

    constructor (l: Ledger)
      ensures Contents() == l && log == []
    {
      books, members, entries := l.books, l.members, l.entries;
      categories, accounts, rates := l.categories, l.accounts, l.rates;
      log := [];
    }

    function Contents(): Ledger
      reads this
    {
      Ledger(books, members, entries, categories, accounts, rates)
    }

    /** The categories are the book's, and their ids are new and differ. */
    method CheckCategories(bookID: string, cs: seq<Category>) returns (ok: bool)
      ensures ok <==> CanAddCategories(Contents(), bookID, cs)
    {
      var seen: set<string> := {};
      for i := 0 to |cs|
        invariant seen == set j | 0 <= j < i :: cs[j].id
        invariant forall j :: 0 <= j < i ==> cs[j].bookID == bookID && !HasCategoryId(categories, cs[j].id)
        invariant DistinctCategoryIds(cs[..i])
      {
        if cs[i].bookID != bookID || cs[i].id in seen {
          return false;
        }
        seen := seen + {cs[i].id};
        for k := 0 to |categories|
          invariant forall j :: 0 <= j < k ==> categories[j].id != cs[i].id
        {
          if categories[k].id == cs[i].id {
            return false;
          }
        }
      }
      assert cs[..|cs|] == cs;
      return true;
    }

    method CreateBook(b: Book, owner: BookMember, cs: seq<Category>) returns (r: Result<(), LedgerError>)
      modifies this
      ensures var next := AddBook(old(Contents()), b, owner, cs);
              && r.Ok? == next.Ok?
              && (r.Err? ==> r.error == next.error && Contents() == old(Contents()) && log == old(log))
              && (r.Ok? ==> Contents() == next.value && log == old(log) + [Contents()])
    {
      if b.id in books || b.id != owner.bookID {
        return Err(Conflict);
      }
      if b.id in members && owner.userID in members[b.id] {
        return Err(Conflict);
      }
      var addable := CheckCategories(b.id, cs);
      if !addable {
        return Err(Conflict);
      }
      books := books[b.id := b];
      if b.id !in members {
        members := members[b.id := map[]];
      }
      members := members[b.id := members[b.id][owner.userID := owner]];
      categories := categories + cs;
      log := log + [Contents()];
      return Ok(());
    }

    method UpdateBook(b: Book) returns (r: Result<(), LedgerError>)
      modifies this
      ensures r.Ok? <==> b.id in old(books)
      ensures r.Err? ==> Contents() == old(Contents()) && log == old(log)
      ensures r.Ok? ==> Contents() == WithBook(old(Contents()), b) && log == old(log) + [Contents()]
    {
      if b.id !in books {
        return Err(NotFound);
      }
      books := books[b.id := b];
      log := log + [Contents()];
      return Ok(());
    }

    method CreateBookMember(m: BookMember) returns (r: Result<(), LedgerError>)
      modifies this
      ensures r.Ok? <==> m.bookID in old(books) && MemberOf(old(Contents()), m.bookID, m.userID).Err?
      ensures r.Err? ==> Contents() == old(Contents()) && log == old(log)
      ensures r.Ok? ==> Contents() == WithMember(old(Contents()), m) && log == old(log) + [Contents()]
    {
      if m.bookID !in books {
        return Err(NotFound);
      }
      var inBook := if m.bookID in members then members[m.bookID] else map[];
      if m.userID in inBook {
        return Err(Conflict);
      }
      members := members[m.bookID := inBook[m.userID := m]];
      log := log + [Contents()];
      return Ok(());
    }

    method UpdateBookMember(m: BookMember) returns (r: Result<(), LedgerError>)
      modifies this
      ensures r.Ok? <==> m.bookID in old(books) && MemberOf(old(Contents()), m.bookID, m.userID).Ok?
      ensures r.Err? ==> Contents() == old(Contents()) && log == old(log)
      ensures r.Ok? ==> Contents() == WithMember(old(Contents()), m) && log == old(log) + [Contents()]
    {
      if m.bookID !in books || m.bookID !in members || m.userID !in members[m.bookID] {
        return Err(NotFound);
      }
      members := members[m.bookID := members[m.bookID][m.userID := m]];
      log := log + [Contents()];
      return Ok(());
    }

    method DeleteBookMember(bookID: string, userID: string) returns (r: Result<(), LedgerError>)
      modifies this
      ensures r.Ok? <==> MemberOf(old(Contents()), bookID, userID).Ok?
      ensures r.Err? ==> Contents() == old(Contents()) && log == old(log)
      ensures r.Ok? ==> Contents() == WithoutMember(old(Contents()), bookID, userID) && log == old(log) + [Contents()]
    {
      if bookID !in members || userID !in members[bookID] {
        return Err(NotFound);
      }
      members := members[bookID := members[bookID] - {userID}];
      log := log + [Contents()];
      return Ok(());
    }

    method CreateCategory(c: Category) returns (r: Result<(), LedgerError>)
      modifies this
      ensures r.Ok? <==> !HasCategoryId(old(categories), c.id)
      ensures r.Err? ==> Contents() == old(Contents()) && r.error == Conflict
      ensures r.Ok? ==> Contents() == old(Contents()).(categories := old(categories) + [c])
    {
      for i := 0 to |categories|
        invariant forall j :: 0 <= j < i ==> categories[j].id != c.id
      {
        if categories[i].id == c.id {
          return Err(Conflict);
        }
      }
      categories := categories + [c];
      log := log + [Contents()];
      return Ok(());
    }

    method UpdateCategory(c: Category) returns (r: Result<(), LedgerError>)
      modifies this
      ensures r.Ok? <==> CategoryIndex(old(categories), c.bookID, c.id) < |old(categories)|
      ensures r.Err? ==> Contents() == old(Contents()) && r.error == NotFound
      ensures r.Ok? ==> Contents() == old(Contents()).(categories := ReplaceCategory(old(categories), c))
    {
      var i := CategoryIndex(categories, c.bookID, c.id);
      if i == |categories| {
        return Err(NotFound);
      }
      categories := categories[i := c];
      log := log + [Contents()];
      return Ok(());
    }

    method CreateEntry(e: Entry) returns (r: Result<(), LedgerError>)
      modifies this
      ensures r.Ok? <==> forall i :: 0 <= i < |old(entries)| ==> old(entries)[i].id != e.id
      ensures r.Err? ==> Contents() == old(Contents()) && r.error == Conflict
      ensures r.Ok? ==> Contents() == old(Contents()).(entries := old(entries) + [e])
    {
      for i := 0 to |entries|
        invariant forall j :: 0 <= j < i ==> entries[j].id != e.id
      {
        if entries[i].id == e.id {
          return Err(Conflict);
        }
      }
      entries := entries + [e];
      log := log + [Contents()];
      return Ok(());
    }

    method UpdateEntry(e: Entry) returns (r: Result<(), LedgerError>)
      modifies this
      ensures r.Ok? <==> EntryIndex(old(entries), e.bookID, e.id) < |old(entries)|
      ensures r.Err? ==> Contents() == old(Contents()) && r.error == NotFound
      ensures r.Ok? ==> Contents() == old(Contents()).(entries := ReplaceEntry(old(entries), e))
    {
      var i := EntryIndex(entries, e.bookID, e.id);
      if i == |entries| {
        return Err(NotFound);
      }
      entries := entries[i := e];
      log := log + [Contents()];
      return Ok(());
    }

    method DeleteEntry(bookID: string, id: string) returns (r: Result<(), LedgerError>)
      modifies this
      ensures r.Ok? <==> EntryIndex(old(entries), bookID, id) < |old(entries)|
      ensures r.Err? ==> Contents() == old(Contents()) && r.error == NotFound
      ensures r.Ok? ==> Contents() == old(Contents()).(entries := RemoveEntry(old(entries), bookID, id))
    {
      var i := EntryIndex(entries, bookID, id);
      if i == |entries| {
        return Err(NotFound);
      }
      entries := entries[..i] + entries[i + 1..];
      log := log + [Contents()];
      return Ok(());
    }

    method CreateAccount(a: Account) returns (r: Result<(), LedgerError>)
      modifies this
      ensures r.Ok? <==> forall i :: 0 <= i < |old(accounts)| ==> old(accounts)[i].id != a.id
      ensures r.Err? ==> Contents() == old(Contents()) && r.error == Conflict
      ensures r.Ok? ==> Contents() == old(Contents()).(accounts := old(accounts) + [a])
    {
      for i := 0 to |accounts|
        invariant forall j :: 0 <= j < i ==> accounts[j].id != a.id
      {
        if accounts[i].id == a.id {
          return Err(Conflict);
        }
      }
      accounts := accounts + [a];
      log := log + [Contents()];
      return Ok(());
    }

    method ReplaceExchangeRates(rs: seq<ExchangeRate>)
      modifies this
      ensures Contents() == old(Contents()).(rates := rs)
    {
      rates := rs;
      log := log + [Contents()];
    }
  }
}
