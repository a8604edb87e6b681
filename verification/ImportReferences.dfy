/**
 Committing an import: the accounts and category paths the rows name are looked up in flat lists,
 created where they are missing, and looked up again when each row is booked.

 Rows arrive parsed. Account groups and account types are not modelled.
 */
module ImportReferences {
  import opened Wrappers
  import opened Text
  import opened LedgerStore
  import opened Rates
  import opened Summary
  import Categories
  import Entries
  import Money
  import ImportBatches

  type Row = ImportBatches.Row

  // ---------------------------------------------------------------------------------------------
  // Paths

  predicate IsSeparator(c: char) { c == '/' || c == '\\' || c == '\U{FF0F}' }

  /** The length of the stretch of `s` before its first separator. */
  function FieldLength(s: string): (n: nat)
    ensures n <= |s| && (forall i :: 0 <= i < n ==> !IsSeparator(s[i])) && (n < |s| ==> IsSeparator(s[n]))
  {
    if s == "" || IsSeparator(s[0]) then 0 else 1 + FieldLength(s[1..])
  }

  /** `strings.FieldsFunc`: the non-empty stretches between separators. */
  function Fields(s: string): seq<string> {
    if s == "" then []
    else if IsSeparator(s[0]) then Fields(s[1..])
    else [s[..FieldLength(s)]] + Fields(s[FieldLength(s)..])
  }

  /** The fields, trimmed, without those that are blank. */
  function Trimmed(fields: seq<string>): (parts: seq<string>)
    ensures forall p :: p in parts ==> p != "" && Tight(p)
  {
    if fields == [] then []
    else
      var last := fields[|fields| - 1];
      TrimIsTight(last);
      Trimmed(fields[..|fields| - 1]) + (if Trim(last) == "" then [] else [Trim(last)])
  }

  function Parts(path: string): seq<string> { Trimmed(Fields(path)) }

  method SplitWacaiCategoryPath(path: string) returns (parts: seq<string>)
    ensures parts == Parts(path)
  {
    var fields := Fields(path);
    parts := [];
    for i := 0 to |fields|
      invariant parts == Trimmed(fields[..i])
    {
      assert fields[..i + 1][..i] == fields[..i];
      var part := Trim(fields[i]);
      if part != "" {
        parts := parts + [part];
      }
    }
    assert fields[..|fields|] == fields;
  }

  /** No separator of either script in the text. */
  ghost predicate IsOneField(s: string) { '/' !in s && '\\' !in s && '\U{FF0F}' !in s }

  lemma {:induction false} FieldEnds(field: string, rest: string)
    requires IsOneField(field) && (rest == "" || IsSeparator(rest[0]))
    ensures FieldLength(field + rest) == |field|
  {
    if field == "" {
      assert field + rest == rest;
    } else {
      FieldEnds(field[1..], rest);
      assert (field + rest)[1..] == field[1..] + rest;
    }
  }

  lemma {:induction false} FieldsOfJoined(fields: seq<string>, sep: char)
    requires sep in {'/', '\\', '\U{FF0F}'} && forall i :: 0 <= i < |fields| ==> fields[i] != "" && IsOneField(fields[i])
    ensures Fields(Join(fields, sep)) == fields
  {
    if fields != [] {
      var first, rest := fields[0], fields[1..];
      if rest == [] {
        FieldEnds(first, "");
        assert first + "" == first && Fields(first[|first|..]) == [];
      } else {
        FieldsOfJoined(rest, sep);
        FieldThenRest(first, sep, Join(rest, sep));
        assert first + [sep] + Join(rest, sep) == first + ([sep] + Join(rest, sep));
      }
    }
  }

  lemma FieldThenRest(field: string, sep: char, rest: string)
    requires field != "" && IsOneField(field) && IsSeparator(sep)
    ensures Fields(field + ([sep] + rest)) == [field] + Fields(rest)
  {
    var tail := [sep] + rest;
    FieldEnds(field, tail);
    assert (field + tail)[..|field|] == field && (field + tail)[|field|..] == tail && tail[1..] == rest;
  }

  lemma {:induction false} TrimmedEach(fields: seq<string>, parts: seq<string>)
    requires |fields| == |parts| && forall i :: 0 <= i < |parts| ==> parts[i] == Trim(fields[i]) && parts[i] != ""
    ensures Trimmed(fields) == parts
  {
    if fields != [] {
      var n := |fields| - 1;
      TrimmedEach(fields[..n], parts[..n]);
      assert parts == parts[..n] + [parts[n]];
    }
  }

  /** Parts joined by any of the three separators, with spaces around them or not, are split into the parts. */
  lemma PartsOfJoined(fields: seq<string>, parts: seq<string>, sep: char)
    requires sep in {'/', '\\', '\U{FF0F}'} && |fields| == |parts|
    requires forall i :: 0 <= i < |fields| ==> IsOneField(fields[i]) && parts[i] == Trim(fields[i]) && parts[i] != ""
    ensures Parts(Join(fields, sep)) == parts
  {
    assert Trim("") == "";
    FieldsOfJoined(fields, sep);
    TrimmedEach(fields, parts);
  }

  // ---------------------------------------------------------------------------------------------
  // Lookups

  /** The first active child with this name and direction, or the empty id. */
  function FindChild(cs: seq<Category>, parentID: string, name: string, direction: Direction): string {
    if cs == [] then ""
    else if cs[0].parentID == parentID && cs[0].name == name && cs[0].direction == direction
        && !cs[0].archived then cs[0].id
    else FindChild(cs[1..], parentID, name, direction)
  }

  /** The id a path leads to from the root: None when some part is missing. */
  function Walk(cs: seq<Category>, parts: seq<string>, direction: Direction): Option<string> {
    if parts == [] then Some("")
    else
      match Walk(cs, parts[..|parts| - 1], direction)
      case None => None
      case Some(parentID) =>
        var id := FindChild(cs, parentID, parts[|parts| - 1], direction);
        if id == "" then None else Some(id)
  }

  function PathID(cs: seq<Category>, path: string, direction: Direction): string {
    var id := Walk(cs, Parts(path), direction);
    if id.None? then "" else id.value
  }

  method CategoryIDByPathDirection(cs: seq<Category>, path: string, direction: Direction) returns (id: string)
    ensures id == PathID(cs, path, direction)
  {
    id := "";
    var parts := SplitWacaiCategoryPath(path);
    for i := 0 to |parts|
      invariant Walk(cs, parts[..i], direction) == Some(id)
    {
      assert parts[..i + 1][..i] == parts[..i];
      var child := FindChild(cs, id, parts[i], direction);
      if child == "" {
        MissingPart(cs, parts, direction, i + 1);
        return "";
      }
      id := child;
    }
    assert parts[..|parts|] == parts;
  }

  lemma {:induction false} MissingPart(cs: seq<Category>, parts: seq<string>, direction: Direction, n: nat)
    requires n <= |parts| && Walk(cs, parts[..n], direction).None?
    ensures Walk(cs, parts, direction).None?
  {
    if n == |parts| {
      assert parts[..n] == parts;
    } else {
      assert parts[..|parts| - 1][..n] == parts[..n];
      MissingPart(cs, parts[..|parts| - 1], direction, n);
    }
  }

  /** The first account with this name and currency, or the empty id. */
  function AccountID(accounts: seq<Account>, name: string, currency: string): string {
    if accounts == [] then ""
    else if accounts[0].name == Trim(name) && accounts[0].currency == currency then accounts[0].id
    else AccountID(accounts[1..], name, currency)
  }

  ghost predicate CategoryIds(cs: seq<Category>) { forall i :: 0 <= i < |cs| ==> cs[i].id != "" }

  /** Accounts in the ledger have ids and names. */
  ghost predicate AccountIds(accounts: seq<Account>) {
    forall i :: 0 <= i < |accounts| ==> accounts[i].id != "" && accounts[i].name != ""
  }

  /** The list holds exactly the book's stored categories, as `listAllImportCategories` loads them. */
  ghost predicate LoadedCategories(cs: seq<Category>, stored: seq<Category>, bookID: string) {
    forall c: Category :: c in cs <==> c in stored && c.bookID == bookID
  }

  /** The list holds exactly the actor's stored accounts, as `listAllImportAccounts` loads them. */
  ghost predicate LoadedAccounts(accounts: seq<Account>, stored: seq<Account>, actor: string) {
    forall a: Account :: a in accounts <==> a in stored && a.userID == actor
  }

  /** A resolved path names a listed active category of the right name and direction. */
  lemma {:induction false} ChildIsListed(cs: seq<Category>, parentID: string, name: string, direction: Direction)
    requires FindChild(cs, parentID, name, direction) != ""
    ensures exists c :: c in cs && !c.archived && c.id == FindChild(cs, parentID, name, direction)
                        && c.parentID == parentID && c.name == name && c.direction == direction
  {
    if !(cs[0].parentID == parentID && cs[0].name == name && cs[0].direction == direction && !cs[0].archived) {
      ChildIsListed(cs[1..], parentID, name, direction);
    }
  }

  /** In loaded lists a resolved path leads to a stored category of the book, and a name to a stored account. */
  lemma ResolvedPathIsStored(cs: seq<Category>, stored: seq<Category>, bookID: string, parts: seq<string>,
      direction: Direction)
    requires LoadedCategories(cs, stored, bookID) && parts != [] && Walk(cs, parts, direction).Some?
    ensures exists c :: c in stored && c.bookID == bookID && !c.archived && c.id == Walk(cs, parts, direction).value
                        && c.name == parts[|parts| - 1] && c.direction == direction
  {
    ChildIsListed(cs, Walk(cs, parts[..|parts| - 1], direction).value, parts[|parts| - 1], direction);
  }

  lemma {:induction false} ResolvedAccountIsListed(accounts: seq<Account>, name: string, currency: string)
    requires AccountID(accounts, name, currency) != ""
    ensures exists a :: a in accounts && a.id == AccountID(accounts, name, currency)
                        && a.name == Trim(name) && a.currency == currency
  {
    if !(accounts[0].name == Trim(name) && accounts[0].currency == currency) {
      ResolvedAccountIsListed(accounts[1..], name, currency);
    }
  }

  /** Appending never changes an answer: the first match wins. */
  lemma {:induction false} ChildIsStable(cs: seq<Category>, more: seq<Category>, parentID: string, name: string,
      direction: Direction)
    requires CategoryIds(cs)
    ensures FindChild(cs + more, parentID, name, direction) ==
            if FindChild(cs, parentID, name, direction) != "" then FindChild(cs, parentID, name, direction)
            else FindChild(more, parentID, name, direction)
  {
    if cs == [] {
      assert cs + more == more;
    } else {
      assert (cs + more)[1..] == cs[1..] + more;
      ChildIsStable(cs[1..], more, parentID, name, direction);
    }
  }

  lemma {:induction false} WalkIsStable(cs: seq<Category>, more: seq<Category>, parts: seq<string>, direction: Direction)
    requires CategoryIds(cs) && Walk(cs, parts, direction).Some?
    ensures Walk(cs + more, parts, direction) == Walk(cs, parts, direction)
  {
    if parts != [] {
      var init := parts[..|parts| - 1];
      WalkIsStable(cs, more, init, direction);
      ChildIsStable(cs, more, Walk(cs, init, direction).value, parts[|parts| - 1], direction);
    }
  }

  lemma {:induction false} AccountIsStable(accounts: seq<Account>, more: seq<Account>, name: string, currency: string)
    requires AccountIds(accounts)
    ensures AccountID(accounts + more, name, currency) ==
            if AccountID(accounts, name, currency) != "" then AccountID(accounts, name, currency)
            else AccountID(more, name, currency)
  {
    if accounts == [] {
      assert accounts + more == more;
    } else {
      assert (accounts + more)[1..] == accounts[1..] + more;
      AccountIsStable(accounts[1..], more, name, currency);
    }
  }

  // ---------------------------------------------------------------------------------------------
  // Ensuring a category path

  /** Draws UUIDs; all that matters here is that they are not empty and have no spaces around. */
  class IdSource {
    const draw: nat -> string
    var drawn: nat

    constructor (draw: nat -> string)
      requires forall n :: draw(n) != "" && Tight(draw(n))
      ensures Valid()
    {
      this.draw, drawn := draw, 0;
    }

    ghost predicate Valid() { forall n :: draw(n) != "" && Tight(draw(n)) }

    method Next() returns (id: string)
      requires Valid()
      modifies this
      ensures id != "" && Tight(id)
    {
      id := draw(drawn);
      drawn := drawn + 1;
    }
  }

  /** No two active siblings share a name and direction. */
  ghost predicate UniqueChildren(cs: seq<Category>) {
    forall i, j :: 0 <= i < j < |cs| && !cs[i].archived && !cs[j].archived ==>
      cs[i].parentID != cs[j].parentID || cs[i].name != cs[j].name || cs[i].direction != cs[j].direction
  }

  lemma {:induction false} NoSuchChild(cs: seq<Category>, parentID: string, name: string, direction: Direction)
    requires CategoryIds(cs) && FindChild(cs, parentID, name, direction) == ""
    ensures forall i :: 0 <= i < |cs| ==>
              cs[i].archived || cs[i].parentID != parentID || cs[i].name != name || cs[i].direction != direction
  {
    if cs != [] { NoSuchChild(cs[1..], parentID, name, direction); }
  }

  /** What ensuring a path leaves behind: the old list, extended so that the path resolves. */
  ghost predicate Ensured(before: seq<Category>, after: seq<Category>, parts: seq<string>, direction: Direction) {
    && before <= after && CategoryIds(after)
    && Walk(after, parts, direction).Some?
    && (Walk(before, parts, direction).Some? ==> after == before)
    && (UniqueChildren(before) ==> UniqueChildren(after))
  }

  method EnsureWacaiImportCategory(store: MemoryStore, ids: IdSource, actor: string, bookID: string,
                                   categories: seq<Category>, sourcePath: string, direction: Direction)
    returns (r: Result<seq<Category>, LedgerError>)
    requires Categories.Forested(store.categories) && CategoryIds(categories) && ids.Valid()
    requires LoadedCategories(categories, store.categories, bookID)
    modifies store, ids
    ensures Categories.Forested(store.categories)
    ensures store.entries == old(store.entries) && store.accounts == old(store.accounts)
    ensures r.Ok? ==> Ensured(categories, r.value, Parts(sourcePath), direction)
    ensures r.Ok? ==> LoadedCategories(r.value, store.categories, bookID)
  {
    var parts := SplitWacaiCategoryPath(sourcePath);
    var list, parentID := categories, "";
    for i := 0 to |parts|
      invariant Categories.Forested(store.categories) && ids.Valid()
      invariant store.entries == old(store.entries) && store.accounts == old(store.accounts)
      invariant LoadedCategories(list, store.categories, bookID)
      invariant Ensured(categories, list, parts[..i], direction)
      invariant Walk(list, parts[..i], direction) == Some(parentID)
    {
      assert parts[..i + 1][..i] == parts[..i];
      ghost var before := list;
      var rawSourceName := if i == |parts| - 1 then Trim(sourcePath) else parts[i];
      list, parentID :- EnsurePart(store, ids, actor, bookID, list, parts[..i + 1], parentID, direction, rawSourceName);
      EnsuredNext(categories, before, list, parts[..i + 1], direction);
    }
    assert parts[..|parts|] == parts;
    return Ok(list);
  }

  /** One round of the loop: the last part's category under `parentID`, created when it is missing. */
  method EnsurePart(store: MemoryStore, ids: IdSource, actor: string, bookID: string, categories: seq<Category>,
                    parts: seq<string>, parentID: string, direction: Direction, rawSourceName: string)
    returns (r: Result<seq<Category>, LedgerError>, id: string)
    requires Categories.Forested(store.categories) && CategoryIds(categories) && ids.Valid()
    requires LoadedCategories(categories, store.categories, bookID)
    requires parts != [] && Walk(categories, parts[..|parts| - 1], direction) == Some(parentID)
    modifies store, ids
    ensures Categories.Forested(store.categories) && ids.Valid()
    ensures store.entries == old(store.entries) && store.accounts == old(store.accounts)
    ensures r.Ok? ==>
              && categories <= r.value && CategoryIds(r.value) && LoadedCategories(r.value, store.categories, bookID)
              && Walk(r.value, parts, direction) == Some(id)
              && (Walk(categories, parts, direction).Some? ==> r.value == categories)
              && (UniqueChildren(categories) ==> UniqueChildren(r.value))
  {
    var name := parts[|parts| - 1];
    id := FindChild(categories, parentID, name, direction);
    if id != "" {
      return Ok(categories), id;
    }
    var created := CreatePart(store, ids, Categories.Create(actor, bookID, "", parentID, name, direction,
                                                            |categories| + 1, rawSourceName));
    if created.Err? {
      return Err(created.error), "";
    }
    NewPartResolves(categories, created.value, parts, direction);
    return Ok(categories + [created.value]), created.value.id;
  }

  /** `CreateCategory` with a fresh id: the stored category has the requested fields. */
  method CreatePart(store: MemoryStore, ids: IdSource, q: Categories.Request) returns (r: Result<Category, LedgerError>)
    requires q.Create? && Categories.Forested(store.categories) && ids.Valid()
    modifies store, ids
    ensures Categories.Forested(store.categories) && ids.Valid()
    ensures store.entries == old(store.entries) && store.accounts == old(store.accounts)
    ensures store.categories == if r.Ok? then old(store.categories) + [r.value] else old(store.categories)
    ensures r.Ok? ==> r.value.id != "" && r.value == Category(r.value.id, q.bookID, q.parentID, q.name, q.direction,
                                                              q.sortOrder, false, q.rawSourceName)
  {
    var id := ids.Next();
    ghost var l := store.Contents();
    var request := Categories.Create(q.actor, q.bookID, id, q.parentID, q.name, q.direction, q.sortOrder,
        q.rawSourceName);
    r := Categories.CreateCategory(store, request);
    if r.Ok? {
      Categories.CreateKeepsForest(l, request);
    }
  }

  lemma EnsuredNext(start: seq<Category>, before: seq<Category>, after: seq<Category>, parts: seq<string>,
      direction: Direction)
    requires parts != [] && Ensured(start, before, parts[..|parts| - 1], direction)
    requires before <= after && CategoryIds(after) && Walk(after, parts, direction).Some?
    requires UniqueChildren(before) ==> UniqueChildren(after)
    requires Walk(before, parts, direction).Some? ==> after == before
    ensures Ensured(start, after, parts, direction)
  {}

  /** One creation step: the new category answers the missing part, and nothing before it changes. */
  lemma NewPartResolves(list: seq<Category>, c: Category, parts: seq<string>, direction: Direction)
    requires parts != [] && CategoryIds(list) && c.id != "" && !c.archived && c.direction == direction
    requires c.name == parts[|parts| - 1] && Walk(list, parts[..|parts| - 1], direction) == Some(c.parentID)
    requires FindChild(list, c.parentID, c.name, direction) == ""
    ensures Walk(list + [c], parts, direction) == Some(c.id) && CategoryIds(list + [c])
    ensures UniqueChildren(list) ==> UniqueChildren(list + [c])
  {
    WalkIsStable(list, [c], parts[..|parts| - 1], direction);
    ChildIsStable(list, [c], c.parentID, c.name, direction);
    NoSuchChild(list, c.parentID, c.name, direction);
  }

  // ---------------------------------------------------------------------------------------------
  // Ensuring an account

  const MAX_ACCOUNT_NAME: nat := 120

  /** The account service, as far as imports use it. */
  method CreateAccount(store: MemoryStore, ids: IdSource, actor: string, bookID: string, name: string, currency: string)
    returns (r: Result<Account, LedgerError>)
    requires ids.Valid()
    modifies store, ids
    ensures ids.Valid() && store.categories == old(store.categories) && store.entries == old(store.entries)
    ensures r.Ok? ==> r.value.id != "" && r.value == Account(r.value.id, actor, name, currency, [bookID])
    ensures store.accounts == if r.Ok? then old(store.accounts) + [r.value] else old(store.accounts)
  {
    if actor == "" || name == "" || |name| > MAX_ACCOUNT_NAME || currency !in Money.SUPPORTED {
      return Err(InvalidInput);
    }
    if MemberOf(store.Contents(), bookID, actor).Err? {
      return Err(AccessDenied);
    }
    var id := ids.Next();
    var account := Account(id, actor, name, currency, [bookID]);
    var _ :- store.CreateAccount(account);
    return Ok(account);
  }

  /** A blank name asks for nothing; otherwise the name and currency resolve, as before if they did before. */
  ghost predicate AccountEnsured(before: seq<Account>, after: seq<Account>, name: string, currency: string) {
    && before <= after && AccountIds(after)
    && (Trim(name) != "" ==> AccountID(after, name, currency) != "")
    && (Trim(name) == "" || AccountID(before, name, currency) != "" ==> after == before)
  }

  method EnsureWacaiImportAccount(store: MemoryStore, ids: IdSource, actor: string, bookID: string,
                                  accounts: seq<Account>, name: string, currency: string)
    returns (r: Result<seq<Account>, LedgerError>)
    requires AccountIds(accounts) && ids.Valid() && LoadedAccounts(accounts, store.accounts, actor)
    modifies store, ids
    ensures ids.Valid() && store.categories == old(store.categories) && store.entries == old(store.entries)
    ensures r.Ok? ==> AccountEnsured(accounts, r.value, name, currency)
    ensures r.Ok? ==> LoadedAccounts(r.value, store.accounts, actor)
  {
    TrimIsTight(name);
    if Trim(name) == "" || AccountID(accounts, name, currency) != "" {
      return Ok(accounts);
    }
    var account :- CreateAccount(store, ids, actor, bookID, Trim(name), currency);
    AccountIsStable(accounts, [account], name, currency);
    return Ok(accounts + [account]);
  }

  // ---------------------------------------------------------------------------------------------
  // Rows

  function ImportEntryType(raw: string): Option<EntryType> {
    match raw
    case "expense" => Some(ExpenseEntry)
    case "income" => Some(IncomeEntry)
    case "transfer" => Some(Transfer)
    case "refund" => Some(Refund)
    case "reimbursement" => Some(Reimbursement)
    case "borrow" => Some(Borrow)
    case "lend" => Some(Lend)
    case "repayment" => Some(Repayment)
    case _ => None
  }

  /** The type texts that can be imported, trimmed and in lower case. */
  const TYPES: set<string> := {
    "expense", "income", "transfer", "refund", "reimbursement", "borrow", "lend", "repayment"}

  /** What each of them means. */
  ghost predicate MeansKind(text: string, kind: EntryType) {
    && text in TYPES
    && (text == "expense" ==> kind == ExpenseEntry)
    && (text == "income" ==> kind == IncomeEntry)
    && (text == "transfer" ==> kind == Transfer)
    && (text == "refund" ==> kind == Refund)
    && (text == "reimbursement" ==> kind == Reimbursement)
    && (text == "borrow" ==> kind == Borrow)
    && (text == "lend" ==> kind == Lend)
    && (text == "repayment" ==> kind == Repayment)
  }

  lemma TypeMeansKind(text: string)
    ensures ImportEntryType(text).Some? <==> text in TYPES
    ensures text in TYPES ==> MeansKind(text, ImportEntryType(text).value)
  {}

  function ImportCategoryDirection(kind: EntryType): Direction {
    match kind
    case IncomeEntry | Borrow | Refund | Reimbursement | Repayment => Income
    case _ => Expense
  }

  /** The references a row asks for resolve: its accounts, and its category path unless it is a transfer. */
  ghost predicate Resolves(row: Row, kind: EntryType, accounts: seq<Account>, categories: seq<Category>) {
    && (Trim(row.account) != "" ==> AccountID(accounts, row.account, row.currency) != "")
    && (kind.Transfer? && Trim(row.destinationAccount) != "" ==>
          AccountID(accounts, row.destinationAccount, row.currency) != "")
    && (!kind.Transfer? ==> Walk(categories, Parts(row.category), ImportCategoryDirection(kind)).Some?)
  }

  ghost predicate Wanted(row: Row) { row.errors == [] && ImportEntryType(row.kind).Some? }

  lemma ResolvesIsStable(row: Row, kind: EntryType, accounts: seq<Account>, categories: seq<Category>,
                         accounts': seq<Account>, categories': seq<Category>)
    requires Resolves(row, kind, accounts, categories) && AccountIds(accounts) && CategoryIds(categories)
    requires accounts <= accounts' && categories <= categories'
    ensures Resolves(row, kind, accounts', categories')
  {
    var more, more' := accounts'[|accounts|..], categories'[|categories|..];
    assert accounts' == accounts + more && categories' == categories + more';
    AccountIsStable(accounts, more, row.account, row.currency);
    AccountIsStable(accounts, more, row.destinationAccount, row.currency);
    if !kind.Transfer? {
      WalkIsStable(categories, more', Parts(row.category), ImportCategoryDirection(kind));
    }
  }

  /** Creates what one row is missing. */
  method EnsureRow(store: MemoryStore, ids: IdSource, actor: string, bookID: string, accounts: seq<Account>,
                   categories: seq<Category>, row: Row, kind: EntryType)
    returns (r: Result<(seq<Account>, seq<Category>), LedgerError>)
    requires Categories.Forested(store.categories) && ids.Valid()
    requires AccountIds(accounts) && CategoryIds(categories)
    requires LoadedAccounts(accounts, store.accounts, actor) && LoadedCategories(categories, store.categories, bookID)
    modifies store, ids
    ensures Categories.Forested(store.categories) && ids.Valid() && store.entries == old(store.entries)
    ensures r.Ok? ==>
              && accounts <= r.value.0 && categories <= r.value.1
              && LoadedAccounts(r.value.0, store.accounts, actor) && LoadedCategories(r.value.1, store.categories, bookID)
              && AccountIds(r.value.0) && CategoryIds(r.value.1)
              && (UniqueChildren(categories) ==> UniqueChildren(r.value.1))
              && Resolves(row, kind, r.value.0, r.value.1)
  {
    var own :- EnsureWacaiImportAccount(store, ids, actor, bookID, accounts, row.account, row.currency);
    if kind.Transfer? {
      var both :- EnsureWacaiImportAccount(store, ids, actor, bookID, own, row.destinationAccount, row.currency);
      AccountIsStable(own, both[|own|..], row.account, row.currency);
      assert both == own + both[|own|..];
      return Ok((both, categories));
    }
    var list :- EnsureWacaiImportCategory(store, ids, actor, bookID, categories, row.category,
        ImportCategoryDirection(kind));
    return Ok((own, list));
  }

  /**
   Ensures every row's references in turn. Afterwards all of them resolve together: what a later row
   added never changed an earlier answer.
   */
  method EnsureWacaiImportReferences(store: MemoryStore, ids: IdSource, actor: string, bookID: string,
                                     accounts: seq<Account>, categories: seq<Category>, rows: seq<Row>)
    returns (r: Result<(seq<Account>, seq<Category>), LedgerError>)
    requires Categories.Forested(store.categories) && ids.Valid()
    requires AccountIds(accounts) && CategoryIds(categories)
    requires LoadedAccounts(accounts, store.accounts, actor) && LoadedCategories(categories, store.categories, bookID)
    modifies store, ids
    ensures Categories.Forested(store.categories) && ids.Valid() && store.entries == old(store.entries)
    ensures r.Ok? ==>
              && accounts <= r.value.0 && categories <= r.value.1 && AccountIds(r.value.0)
              && LoadedAccounts(r.value.0, store.accounts, actor) && LoadedCategories(r.value.1, store.categories, bookID)
              && (UniqueChildren(categories) ==> UniqueChildren(r.value.1))
              && (forall i :: 0 <= i < |rows| && Wanted(rows[i]) ==>
                    Resolves(rows[i], ImportEntryType(rows[i].kind).value, r.value.0, r.value.1))
              && (forall i :: 0 <= i < |rows| ==> (Skip(rows[i], r.value.0, r.value.1).Some? <==> Unmappable(rows[i])))
  {
    var held, tree := accounts, categories;
    for i := 0 to |rows|
      invariant Categories.Forested(store.categories) && ids.Valid() && store.entries == old(store.entries)
      invariant accounts <= held && categories <= tree && AccountIds(held) && CategoryIds(tree)
      invariant LoadedAccounts(held, store.accounts, actor) && LoadedCategories(tree, store.categories, bookID)
      invariant UniqueChildren(categories) ==> UniqueChildren(tree)
      invariant forall j :: 0 <= j < i && Wanted(rows[j]) ==>
                  Resolves(rows[j], ImportEntryType(rows[j].kind).value, held, tree)
    {
      var row := rows[i];
      var kind := ImportEntryType(row.kind);
      if |row.errors| > 0 || kind.None? {
        continue;
      }
      var next :- EnsureRow(store, ids, actor, bookID, held, tree, row, kind.value);
      forall j | 0 <= j < i && Wanted(rows[j])
        ensures Resolves(rows[j], ImportEntryType(rows[j].kind).value, next.0, next.1)
      {
        ResolvesIsStable(rows[j], ImportEntryType(rows[j].kind).value, held, tree, next.0, next.1);
      }
      held, tree := next.0, next.1;
    }
    forall i | 0 <= i < |rows| ensures Skip(rows[i], held, tree).Some? <==> Unmappable(rows[i]) {
      SkippedIffUnmappable(rows[i], held, tree);
    }
    return Ok((held, tree));
  }

  // ---------------------------------------------------------------------------------------------
  // Booking the rows

  datatype SkipReason = RowErrors | AccountNotMapped | TypeNotSupported | DestinationNotMapped | CategoryNotMapped

  datatype RowOutcome = Imported(entry: Entry) | Skipped(rowNumber: int, reason: SkipReason)

  /** Why a row is skipped, in the order the checks are made; None when it is booked. */
  function Skip(row: Row, accounts: seq<Account>, categories: seq<Category>): Option<SkipReason> {
    if row.errors != [] then Some(RowErrors)
    else if AccountID(accounts, row.account, row.currency) == "" then Some(AccountNotMapped)
    else
      match ImportEntryType(row.kind)
      case None => Some(TypeNotSupported)
      case Some(kind) =>
        if kind.Transfer? then
          if AccountID(accounts, row.destinationAccount, row.currency) == "" then Some(DestinationNotMapped) else None
        else if Trim(row.category) != "" && PathID(categories, row.category, ImportCategoryDirection(kind)) == "" then
          Some(CategoryNotMapped)
        else None
  }

  /** What no list could map: decided by the row alone. */
  predicate Unmappable(row: Row) {
    || row.errors != [] || row.kind !in TYPES || Trim(row.account) == ""
    || (row.kind == "transfer" && Trim(row.destinationAccount) == "")
    || (row.kind != "transfer" && Trim(row.category) != "" && Parts(row.category) == [])
  }

  lemma {:induction false} BlankNameMatchesNothing(accounts: seq<Account>, name: string, currency: string)
    requires AccountIds(accounts) && Trim(name) == ""
    ensures AccountID(accounts, name, currency) == ""
  {
    if accounts != [] { BlankNameMatchesNothing(accounts[1..], name, currency); }
  }

  /** Once its references resolve, a row is skipped exactly when it is unmappable. */
  lemma SkippedIffUnmappable(row: Row, accounts: seq<Account>, categories: seq<Category>)
    requires AccountIds(accounts)
    requires Wanted(row) ==> Resolves(row, ImportEntryType(row.kind).value, accounts, categories)
    ensures Skip(row, accounts, categories).Some? <==> Unmappable(row)
  {
    TypeMeansKind(row.kind);
    if Trim(row.account) == "" { BlankNameMatchesNothing(accounts, row.account, row.currency); }
    if Trim(row.destinationAccount) == "" { BlankNameMatchesNothing(accounts, row.destinationAccount, row.currency); }
    if Wanted(row) && !ImportEntryType(row.kind).value.Transfer? && Parts(row.category) != [] {
      WalkEndsAtCategory(categories, Parts(row.category), ImportCategoryDirection(ImportEntryType(row.kind).value));
    }
  }

  lemma WalkEndsAtCategory(cs: seq<Category>, parts: seq<string>, direction: Direction)
    requires parts != [] && Walk(cs, parts, direction).Some?
    ensures Walk(cs, parts, direction).value != ""
  {}

  /** The entry request a row turns into. */
  function EntryOf(row: Row, kind: EntryType, accounts: seq<Account>, categories: seq<Category>, actor: string,
                   bookID: string, creator: string, id: string, amountCents: int, occurredAt: nat): Entries.Request
  {
    Entries.Create(actor, bookID, id, creator, kind,
                   AccountID(accounts, row.account, row.currency),
                   if kind.Transfer? then AccountID(accounts, row.destinationAccount, row.currency) else "",
                   if Trim(row.category) != "" && !kind.Transfer?
                   then PathID(categories, row.category, ImportCategoryDirection(kind)) else "",
                   amountCents, row.currency, "", occurredAt)
  }

  /** Books one row, or says why it is skipped. Anything the ledger refuses aborts the import. */
  method CommitWacaiRow(store: MemoryStore, ids: IdSource, parse: Parser, actor: string, bookID: string, creator: string,
                        row: Row, accounts: seq<Account>, categories: seq<Category>)
    returns (r: Result<RowOutcome, LedgerError>)
    requires ids.Valid()
    modifies store, ids
    ensures ids.Valid() && store.accounts == old(store.accounts) && store.categories == old(store.categories)
    ensures r.Err? ==> store.entries == old(store.entries)
    ensures var skip := Skip(row, accounts, categories);
            && (skip.Some? ==> r == Ok(Skipped(row.rowNumber, skip.value)) && store.Contents() == old(store.Contents()))
            && (skip.None? && r.Ok? ==>
                  && r.value.Imported? && row.amountCents.Some? && row.occurredAt.Some?
                  && Carries(r.value.entry,
                             EntryOf(row, ImportEntryType(row.kind).value, accounts, categories, actor, bookID, creator,
                                     r.value.entry.id, row.amountCents.value, row.occurredAt.value))
                  && NewlyBooked(old(store.entries), r.value.entry, actor, bookID)
                  && store.entries == old(store.entries) + [r.value.entry])
    ensures r.Ok? && r.value.Imported? ==>
              && BookedFrom(row, accounts, categories, r.value.entry)
              && r.value.entry.creatorUserID == (if creator == "" then actor else creator)
  {
    if |row.errors| > 0 {
      return Ok(Skipped(row.rowNumber, RowErrors));
    }
    if AccountID(accounts, row.account, row.currency) == "" {
      return Ok(Skipped(row.rowNumber, AccountNotMapped));
    }
    var kind := ImportEntryType(row.kind);
    if kind.None? {
      return Ok(Skipped(row.rowNumber, TypeNotSupported));
    }
    if kind.value.Transfer? && AccountID(accounts, row.destinationAccount, row.currency) == "" {
      return Ok(Skipped(row.rowNumber, DestinationNotMapped));
    }
    if Trim(row.category) != "" && !kind.value.Transfer? {
      var categoryID := CategoryIDByPathDirection(categories, row.category, ImportCategoryDirection(kind.value));
      if categoryID == "" {
        return Ok(Skipped(row.rowNumber, CategoryNotMapped));
      }
    }
    if row.amountCents.None? || row.occurredAt.None? {
      return Err(InvalidInput);
    }
    var id := ids.Next();
    var request := EntryOf(row, kind.value, accounts, categories, actor, bookID, creator, id,
                           row.amountCents.value, row.occurredAt.value);
    var entry :- BookEntry(store, request, parse);
    RequestIsBookedFrom(row, accounts, categories, request, entry);
    return Ok(Imported(entry));
  }

  /** The entry has the requested references, amount and date. */
  predicate Carries(e: Entry, q: Entries.Request)
    requires q.Create?
  {
    && e.id == q.id && e.bookID == q.bookID && e.kind == q.kind && e.accountID == q.accountID
    && e.destinationAccountID == q.destinationAccountID && e.categoryID == q.categoryID
    && e.amountCents == q.amountCents && e.occurredAt == q.occurredAt && e.exchangeRate == q.exchangeRate
    && (q.transactionCurrency != "" ==> e.transactionCurrency == q.transactionCurrency)
    && e.creatorUserID == (if q.creatorUserID == "" then q.actor else q.creatorUserID)
  }

  /**
   The entry says what the row says: its kind is the meaning of the type text, its accounts have the row's
   names and currency, and its category has the last name of the row's path and the direction that goes with
   the type.
   */
  ghost predicate BookedFrom(row: Row, accounts: seq<Account>, categories: seq<Category>, e: Entry) {
    && MeansKind(row.kind, e.kind)
    && row.amountCents == Some(e.amountCents) && row.occurredAt == Some(e.occurredAt)
    && (row.currency != "" ==> e.transactionCurrency == row.currency) && e.exchangeRate == ""
    && (exists a :: a in accounts && a.id == e.accountID && a.name == Trim(row.account) && a.currency == row.currency)
    && (if row.kind == "transfer" then
          exists a :: a in accounts && a.id == e.destinationAccountID && a.name == Trim(row.destinationAccount)
                      && a.currency == row.currency
        else e.destinationAccountID == "")
    && (if row.kind == "transfer" || Trim(row.category) == "" then e.categoryID == ""
        else
          && Parts(row.category) != []
          && exists c :: c in categories && !c.archived && c.id == e.categoryID
                         && c.name == Parts(row.category)[|Parts(row.category)| - 1]
                         && c.direction == if row.kind in {"expense", "lend"} then Expense else Income)
  }

  lemma RequestIsBookedFrom(row: Row, accounts: seq<Account>, categories: seq<Category>, q: Entries.Request, e: Entry)
    requires Skip(row, accounts, categories).None? && row.amountCents.Some? && row.occurredAt.Some?
    requires q.Create? && Carries(e, q)
    requires q == EntryOf(row, ImportEntryType(row.kind).value, accounts, categories, q.actor, q.bookID,
                          q.creatorUserID, q.id, row.amountCents.value, row.occurredAt.value)
    ensures BookedFrom(row, accounts, categories, e)
  {
    TypeMeansKind(row.kind);
    ResolvedAccountIsListed(accounts, row.account, row.currency);
    if row.kind == "transfer" {
      ResolvedAccountIsListed(accounts, row.destinationAccount, row.currency);
    } else if Trim(row.category) != "" {
      var parts, direction := Parts(row.category), ImportCategoryDirection(ImportEntryType(row.kind).value);
      var n := |parts| - 1;
      ChildIsListed(categories, Walk(categories, parts[..n], direction).value, parts[n], direction);
    }
  }

  /** The call had an actor and a book, and the entry's id is well-formed and new. */
  ghost predicate NewlyBooked(before: seq<Entry>, e: Entry, actor: string, bookID: string) {
    actor != "" && bookID != "" && e.bookID == bookID && e.id != "" && Tight(e.id) && forall i :: 0 <= i < |before| ==> before[i].id != e.id
  }

  method BookEntry(store: MemoryStore, q: Entries.Request, parse: Parser) returns (r: Result<Entry, LedgerError>)
    requires q.Create? && q.id != "" && Tight(q.id)
    modifies store
    ensures store.accounts == old(store.accounts) && store.categories == old(store.categories)
    ensures r.Err? ==> store.entries == old(store.entries)
    ensures r.Ok? ==>
              && Carries(r.value, q) && NewlyBooked(old(store.entries), r.value, q.actor, q.bookID)
              && store.entries == old(store.entries) + [r.value]
  {
    ghost var l := store.Contents();
    r := Entries.CreateEntry(store, q, parse);
    if r.Ok? {
      ghost var a :| Entries.CreationFits(l, q, a, r.value);
      RequestedCarries(l, q, a, r.value);
    }
  }

  lemma RequestedCarries(l: Ledger, q: Entries.Request, a: Account, e: Entry)
    requires q.Create? && Entries.IsNewEntry(l, q, a, e)
    ensures Carries(e, q)
  {}

  datatype Response = Response(entries: seq<Entry>, skipped: seq<(int, SkipReason)>)

  /** The rows that are skipped, in order, with their reasons. */
  function SkippedRows(rows: seq<Row>, accounts: seq<Account>, categories: seq<Category>): seq<(int, SkipReason)> {
    if rows == [] then []
    else
      var last := rows[|rows| - 1];
      SkippedRows(rows[..|rows| - 1], accounts, categories)
      + (match Skip(last, accounts, categories) case None => [] case Some(reason) => [(last.rowNumber, reason)])
  }

  /** The rows some list could map. */
  function Picked(rows: seq<Row>): seq<Row> {
    if rows == [] then []
    else Picked(rows[..|rows| - 1]) + if Unmappable(rows[|rows| - 1]) then [] else [rows[|rows| - 1]]
  }

  function Mappable(rows: seq<Row>): nat { |Picked(rows)| }

  /**
   Commits a batch. On success every row was either booked or skipped, the skipped ones are exactly
   the unmappable ones, and the ledger holds the booked entries in row order.
   */
  method CommitWacaiBatch(store: MemoryStore, ids: IdSource, parse: Parser, actor: string, bookID: string,
                          creators: map<int, string>, accounts: seq<Account>, categories: seq<Category>, rows: seq<Row>)
    returns (r: Result<Response, LedgerError>)
    requires Categories.Forested(store.categories) && ids.Valid()
    requires AccountIds(accounts) && CategoryIds(categories)
    requires LoadedAccounts(accounts, store.accounts, actor) && LoadedCategories(categories, store.categories, bookID)
    modifies store, ids
    ensures AppendsNamed(old(store.entries), store.entries, actor, bookID)
    ensures r.Ok? ==>
              && |r.value.entries| + |r.value.skipped| == |rows| && r.value.entries != []
              && |r.value.entries| == Mappable(rows) && store.entries == old(store.entries) + r.value.entries
              && exists held, tree ::
                   && accounts <= held && LoadedAccounts(held, store.accounts, actor)
                   && categories <= tree && LoadedCategories(tree, store.categories, bookID)
                   && r.value.skipped == SkippedRows(rows, held, tree)
                   && AllBookedFrom(Picked(rows), held, tree, r.value.entries)
    ensures r.Ok? ==> AllCredited(Picked(rows), creators, actor, r.value.entries)
    ensures r.Ok? ==> GrowBy(old(store.entries), store.entries, bookID, Picked(rows))
  {
    var references :- EnsureWacaiImportReferences(store, ids, actor, bookID, accounts, categories, rows);
    var (held, tree) := references;
    r := BookRows(store, ids, parse, actor, bookID, creators, held, tree, rows);
    if r.Ok? && |r.value.entries| == 0 {
      return Err(InvalidInput);
    }
    if r.Ok? {
      assert store.entries[|old(store.entries)|..] == r.value.entries;
      BookedSums(old(store.entries), Picked(rows), held, tree, r.value.entries, bookID);
    }
  }

  /** The amounts of the rows with one of these type texts together. */
  function RowSum(rows: seq<Row>, types: set<string>): int {
    if rows == [] then 0
    else
      var row := rows[|rows| - 1];
      RowSum(rows[..|rows| - 1], types) + if row.kind in types && row.amountCents.Some? then row.amountCents.value else 0
  }

  function Cents(): Entry -> int { (e: Entry) => e.amountCents }

  /** The book's amounts of these kinds grow by those of the rows with the types that mean them. */
  ghost predicate GrowBy(before: seq<Entry>, after: seq<Entry>, bookID: string, rows: seq<Row>) {
    var b, a := EntriesOf(before, bookID), EntriesOf(after, bookID);
    && SumOf(a, {IncomeEntry, Borrow}, Cents()) ==
         SumOf(b, {IncomeEntry, Borrow}, Cents()) + RowSum(rows, {"income", "borrow"})
    && SumOf(a, {ExpenseEntry, Lend}, Cents()) ==
         SumOf(b, {ExpenseEntry, Lend}, Cents()) + RowSum(rows, {"expense", "lend"})
    && SumOf(a, {Refund, Reimbursement, Repayment}, Cents()) ==
         SumOf(b, {Refund, Reimbursement, Repayment}, Cents()) + RowSum(rows, {"refund", "reimbursement", "repayment"})
  }

  lemma BookedSums(before: seq<Entry>, rows: seq<Row>, held: seq<Account>, tree: seq<Category>, entries: seq<Entry>,
                   bookID: string)
    requires AllBookedFrom(rows, held, tree, entries)
    requires forall i :: 0 <= i < |entries| ==> entries[i].bookID == bookID
    ensures GrowBy(before, before + entries, bookID, rows)
  {
    EntriesOfAppended(before, entries, bookID);
    KindsMatch();
    SumFollows(before, rows, held, tree, entries, bookID, {IncomeEntry, Borrow}, {"income", "borrow"});
    SumFollows(before, rows, held, tree, entries, bookID, {ExpenseEntry, Lend}, {"expense", "lend"});
    SumFollows(before, rows, held, tree, entries, bookID, {Refund, Reimbursement, Repayment},
               {"refund", "reimbursement", "repayment"});
  }

  /** A kind is among these exactly when its type text is among those. */
  ghost predicate Matches(kinds: set<EntryType>, types: set<string>) {
    forall text, kind :: MeansKind(text, kind) ==> (kind in kinds <==> text in types)
  }

  lemma KindsMatch()
    ensures Matches({IncomeEntry, Borrow}, {"income", "borrow"})
    ensures Matches({ExpenseEntry, Lend}, {"expense", "lend"})
    ensures Matches({Refund, Reimbursement, Repayment}, {"refund", "reimbursement", "repayment"})
  {}

  lemma SumFollows(before: seq<Entry>, rows: seq<Row>, held: seq<Account>, tree: seq<Category>, entries: seq<Entry>,
                   bookID: string, kinds: set<EntryType>, types: set<string>)
    requires AllBookedFrom(rows, held, tree, entries) && Matches(kinds, types)
    ensures SumOf(EntriesOf(before, bookID) + entries, kinds, Cents()) ==
            SumOf(EntriesOf(before, bookID), kinds, Cents()) + RowSum(rows, types)
  {
    SumOfConcat(EntriesOf(before, bookID), entries, kinds, Cents());
    SumOfRows(rows, held, tree, entries, kinds, types);
  }

  lemma {:induction false} SumOfRows(rows: seq<Row>, held: seq<Account>, tree: seq<Category>, entries: seq<Entry>,
                                     kinds: set<EntryType>, types: set<string>)
    requires AllBookedFrom(rows, held, tree, entries) && Matches(kinds, types)
    ensures SumOf(entries, kinds, Cents()) == RowSum(rows, types)
  {
    if entries != [] {
      var n := |entries| - 1;
      SumOfRows(rows[..n], held, tree, entries[..n], kinds, types);
      assert BookedFrom(rows[n], held, tree, entries[n]);
    }
  }

  /** The entries are those of the rows, one by one. */
  ghost predicate AllBookedFrom(rows: seq<Row>, accounts: seq<Account>, categories: seq<Category>, entries: seq<Entry>) {
    |entries| == |rows| && forall i :: 0 <= i < |rows| ==> BookedFrom(rows[i], accounts, categories, entries[i])
  }

  /** The entries are credited to whom their rows are mapped, and to the actor where a row is mapped to nobody. */
  ghost predicate AllCredited(rows: seq<Row>, creators: map<int, string>, actor: string, entries: seq<Entry>) {
    |entries| == |rows| && forall i :: 0 <= i < |rows| ==> IsCredited(rows[i], creators, actor, entries[i])
  }

  ghost predicate IsCredited(row: Row, creators: map<int, string>, actor: string, e: Entry) {
    e.creatorUserID ==
      if row.rowNumber in creators && creators[row.rowNumber] != "" then creators[row.rowNumber] else actor
  }

  /** The rows so far were booked or skipped, and the skipped ones are those the lists cannot map. */
  ghost predicate Booked(rows: seq<Row>, held: seq<Account>, tree: seq<Category>, entries: seq<Entry>,
                         skipped: seq<(int, SkipReason)>)
  {
    && |entries| + |skipped| == |rows| && skipped == SkippedRows(rows, held, tree)
    && AllBookedFrom(Picked(rows), held, tree, entries)
  }

  /** The ids of the entries are well-formed and no two are the same. */
  ghost predicate DistinctIds(entries: seq<Entry>) {
    && (forall i :: 0 <= i < |entries| ==> entries[i].id != "" && Tight(entries[i].id))
    && (forall i, j :: 0 <= i < j < |entries| ==> entries[i].id != entries[j].id)
  }

  /** And nothing is booked without an actor and a book. */
  ghost predicate Named(entries: seq<Entry>, actor: string, bookID: string) {
    && DistinctIds(entries) && (entries != [] ==> actor != "" && bookID != "")
    && forall i :: 0 <= i < |entries| ==> entries[i].bookID == bookID
  }

  /** A commit, completed or broken off, appends such entries. */
  ghost predicate AppendsNamed(before: seq<Entry>, after: seq<Entry>, actor: string, bookID: string) {
    before <= after && Named(after[|before|..], actor, bookID)
  }

  lemma NamedNext(before: seq<Entry>, response: Response, outcome: RowOutcome, actor: string, bookID: string)
    requires Named(response.entries, actor, bookID)
    requires outcome.Imported? ==> NewlyBooked(before + response.entries, outcome.entry, actor, bookID)
    ensures Named(Added(response, outcome).entries, actor, bookID)
  {
    var entries := response.entries;
    forall i | outcome.Imported? && 0 <= i < |entries| ensures entries[i].id != outcome.entry.id {
      assert (before + entries)[|before| + i] == entries[i];
    }
  }

  /** After some rows: the response tells what became of each, and the ledger has gained its entries. */
  ghost predicate Progress(before: seq<Entry>, after: seq<Entry>, rows: seq<Row>, held: seq<Account>,
                           tree: seq<Category>, response: Response, actor: string, bookID: string)
  {
    && Booked(rows, held, tree, response.entries, response.skipped)
    && after == before + response.entries && AppendsNamed(before, after, actor, bookID)
  }

  lemma ProgressNext(before: seq<Entry>, after: seq<Entry>, after': seq<Entry>, rows: seq<Row>, i: nat,
                     held: seq<Account>, tree: seq<Category>, response: Response, outcome: RowOutcome, actor: string,
                     bookID: string)
    requires i < |rows| && Progress(before, after, rows[..i], held, tree, response, actor, bookID)
    requires Skip(rows[i], held, tree).Some? <==> Unmappable(rows[i])
    requires match Skip(rows[i], held, tree)
             case None =>
               && outcome.Imported? && BookedFrom(rows[i], held, tree, outcome.entry)
               && NewlyBooked(after, outcome.entry, actor, bookID)
               && after' == after + [outcome.entry]
             case Some(reason) => outcome == Skipped(rows[i].rowNumber, reason) && after' == after
    ensures Progress(before, after', rows[..i + 1], held, tree, Added(response, outcome), actor, bookID)
  {
    assert after[|before|..] == response.entries;
    BookedNext(rows, i, held, tree, response, outcome);
    NamedNext(before, response, outcome, actor, bookID);
    assert after'[|before|..] == Added(response, outcome).entries;
  }

  /** The loop over the rows. */
  method BookRows(store: MemoryStore, ids: IdSource, parse: Parser, actor: string, bookID: string,
                  creators: map<int, string>, held: seq<Account>, tree: seq<Category>, rows: seq<Row>)
    returns (r: Result<Response, LedgerError>)
    requires ids.Valid()
    requires forall i :: 0 <= i < |rows| ==> (Skip(rows[i], held, tree).Some? <==> Unmappable(rows[i]))
    modifies store, ids
    ensures store.accounts == old(store.accounts) && store.categories == old(store.categories)
    ensures AppendsNamed(old(store.entries), store.entries, actor, bookID)
    ensures r.Ok? ==>
              && Booked(rows, held, tree, r.value.entries, r.value.skipped)
              && store.entries == old(store.entries) + r.value.entries
              && AllCredited(Picked(rows), creators, actor, r.value.entries)
  {
    var response := Response([], []);
    for i := 0 to |rows|
      invariant ids.Valid() && store.accounts == old(store.accounts) && store.categories == old(store.categories)
      invariant Progress(old(store.entries), store.entries, rows[..i], held, tree, response, actor, bookID)
      invariant AllCredited(Picked(rows[..i]), creators, actor, response.entries)
    {
      var row := rows[i];
      var creator := if row.rowNumber in creators then creators[row.rowNumber] else "";
      ghost var before := store.entries;
      var outcome :- CommitWacaiRow(store, ids, parse, actor, bookID, creator, row, held, tree);
      ProgressNext(old(store.entries), before, store.entries, rows, i, held, tree, response, outcome, actor, bookID);
      CreditedNext(rows, i, held, tree, creators, response, outcome, actor);
      response := Added(response, outcome);
    }
    assert rows[..|rows|] == rows;
    return Ok(response);
  }

  lemma CreditedNext(rows: seq<Row>, i: nat, held: seq<Account>, tree: seq<Category>, creators: map<int, string>,
                     response: Response, outcome: RowOutcome, actor: string)
    requires i < |rows| && AllCredited(Picked(rows[..i]), creators, actor, response.entries)
    requires outcome.Imported? <==> !Unmappable(rows[i])
    requires outcome.Imported? ==> IsCredited(rows[i], creators, actor, outcome.entry)
    ensures AllCredited(Picked(rows[..i + 1]), creators, actor, Added(response, outcome).entries)
  {
    assert rows[..i + 1][..i] == rows[..i];
  }

  function Added(response: Response, outcome: RowOutcome): Response {
    match outcome
    case Skipped(rowNumber, reason) => response.(skipped := response.skipped + [(rowNumber, reason)])
    case Imported(entry) => response.(entries := response.entries + [entry])
  }

  lemma BookedNext(rows: seq<Row>, i: nat, held: seq<Account>, tree: seq<Category>, response: Response,
      outcome: RowOutcome)
    requires i < |rows| && Booked(rows[..i], held, tree, response.entries, response.skipped)
    requires Skip(rows[i], held, tree).Some? <==> Unmappable(rows[i])
    requires match Skip(rows[i], held, tree)
             case None => outcome.Imported? && BookedFrom(rows[i], held, tree, outcome.entry)
             case Some(reason) => outcome == Skipped(rows[i].rowNumber, reason)
    ensures var next := Added(response, outcome); Booked(rows[..i + 1], held, tree, next.entries, next.skipped)
  {
    assert rows[..i + 1][..i] == rows[..i];
  }
}
