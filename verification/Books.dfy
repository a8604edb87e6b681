/**
 Book ownership. A book names its primary owner, and its members carry roles; the use cases below
 write the two tables one after the other and must leave them consistent.

 Ids are taken as already trimmed.
 */
module Books {
  import opened Wrappers
  import opened Text
  import opened LedgerStore
  import opened Seed
  import Money

  /** What a use case does: the contents after each store write, and its result. */
  datatype Outcome<+T> = Outcome(writes: seq<Ledger>, result: Result<T, LedgerError>)

  /** The ledger after a call's last write. */
  function Last(l: Ledger, ws: seq<Ledger>): Ledger {
    if ws == [] then l else ws[|ws| - 1]
  }

  // ---------------------------------------------------------------------------------------------
  // Member lists

  function Pick(inBook: map<string, BookMember>, ids: seq<string>): (r: seq<BookMember>)
    requires forall id :: id in ids ==> id in inBook
    ensures |r| == |ids| && forall i :: 0 <= i < |ids| ==> r[i] == inBook[ids[i]]
  {
    if ids == [] then [] else [inBook[ids[0]]] + Pick(inBook, ids[1..])
  }

  /** A book's members ordered by user id. */
  ghost function ListMembers(inBook: map<string, BookMember>): seq<BookMember> {
    var ids := SortedKeys(inBook.Keys);
    Pick(inBook, ids)
  }

  method BookMembers(store: MemoryStore, bookID: string) returns (r: Result<seq<BookMember>, LedgerError>)
    ensures r.Ok? <==> bookID in store.members
    ensures r.Ok? ==> r.value == ListMembers(store.members[bookID])
    ensures r.Ok? && Keyed(store.Contents()) ==> ByUserID(r.value) && ListsAll(r.value, store.members[bookID])
    ensures r.Err? ==> r.error == NotFound
  {
    if bookID !in store.members {
      return Err(NotFound);
    }
    var inBook := store.members[bookID];
    var list := SortByUserID(inBook, inBook.Keys);
    if Keyed(store.Contents()) { ListIsSorted(inBook); }
    return Ok(list);
  }

  /** Listed by ascending user id. */
  ghost predicate ByUserID(ms: seq<BookMember>) {
    forall i, j :: 0 <= i < j < |ms| ==> LexAtMost(ms[i].userID, ms[j].userID)
  }

  ghost predicate ListsAll(ms: seq<BookMember>, inBook: map<string, BookMember>) {
    forall m: BookMember :: m in ms <==> m.userID in inBook && inBook[m.userID] == m
  }

  /** The list holds each member of the map, by ascending user id. */
  lemma ListIsSorted(inBook: map<string, BookMember>)
    requires forall v :: v in inBook ==> inBook[v].userID == v
    ensures ByUserID(ListMembers(inBook))
    ensures ListsAll(ListMembers(inBook), inBook)
  {
    var ids, list := SortedKeys(inBook.Keys), ListMembers(inBook);
    SortedKeysAscend(inBook.Keys);
    forall i | 0 <= i < |ids| ensures ids[i] in inBook && list[i].userID == ids[i] { assert ids[i] in ids; }
    forall m: BookMember | m.userID in inBook && inBook[m.userID] == m ensures m in list {
      var i :| 0 <= i < |ids| && ids[i] == m.userID;
      assert list[i] == m;
    }
  }

  method LeastKey(keys: set<string>) returns (k: string)
    requires keys != {}
    ensures IsLeast(k, keys)
  {
    LeastExists(keys);
    assert exists k :: k in keys && IsLeast(k, keys);
    k :| k in keys && forall k' :: k' in keys ==> LexAtMost(k, k');
  }

  /** The members under `pending`, in the order of their keys. */
  method SortByUserID(inBook: map<string, BookMember>, pending: set<string>) returns (list: seq<BookMember>)
    requires pending <= inBook.Keys
    ensures list == Pick(inBook, SortedKeys(pending))
    decreases |pending|
  {
    if pending == {} {
      return [];
    }
    var id := LeastKey(pending);
    SortedKeysFirst(pending, id);
    list := SortByUserID(inBook, pending - {id});
    assert ([id] + SortedKeys(pending - {id}))[1..] == SortedKeys(pending - {id});
    list := [inBook[id]] + list;
  }

  function Owners(ms: seq<BookMember>): (n: nat)
    ensures n == 0 <==> forall i :: 0 <= i < |ms| ==> !ms[i].role.Owner?
  {
    if ms == [] then 0 else Owners(ms[..|ms| - 1]) + (if ms[|ms| - 1].role.Owner? then 1 else 0)
  }

  function FirstOther(ms: seq<BookMember>, excluded: string): (r: Option<BookMember>)
    ensures r.None? <==> forall i :: 0 <= i < |ms| ==> ms[i].userID == excluded || !ms[i].role.Owner?
    ensures r.Some? ==> r.value in ms && r.value.userID != excluded && r.value.role.Owner?
  {
    if ms == [] then None
    else if ms[0].userID != excluded && ms[0].role.Owner? then Some(ms[0])
    else FirstOther(ms[1..], excluded)
  }

  method OwnerCount(ms: seq<BookMember>) returns (count: nat)
    ensures count == Owners(ms)
  {
    count := 0;
    for i := 0 to |ms|
      invariant count == Owners(ms[..i])
    {
      assert ms[..i + 1][..i] == ms[..i];
      if ms[i].role.Owner? {
        count := count + 1;
      }
    }
    assert ms[..|ms|] == ms;
  }

  function Find(ms: seq<BookMember>, userID: string): Option<BookMember> {
    if ms == [] then None else if ms[0].userID == userID then Some(ms[0]) else Find(ms[1..], userID)
  }

  method FindBookMember(ms: seq<BookMember>, userID: string) returns (r: Option<BookMember>)
    ensures r == Find(ms, userID)
  {
    for i := 0 to |ms|
      invariant Find(ms, userID) == Find(ms[i..], userID)
    {
      if ms[i].userID == userID {
        return Some(ms[i]);
      }
    }
    return None;
  }

  method FirstOtherOwner(ms: seq<BookMember>, excluded: string) returns (r: Option<BookMember>)
    ensures r == FirstOther(ms, excluded)
  {
    for i := 0 to |ms|
      invariant FirstOther(ms, excluded) == FirstOther(ms[i..], excluded)
    {
      if ms[i].userID != excluded && ms[i].role.Owner? {
        return Some(ms[i]);
      }
    }
    return None;
  }

  // ---------------------------------------------------------------------------------------------
  // The use cases, as functions of the ledger

  /** One call. `NewBook` carries the book id and the category ids its UUIDs draw. */
  datatype Request =
    | AddMember(actor: string, bookID: string, userID: string, role: Role, displayName: string)
    | SetRole(actor: string, bookID: string, userID: string, role: Role)
    | RemoveMember(actor: string, bookID: string, userID: string)
    | SetBook(actor: string, bookID: string, newName: Option<string>, newCurrency: Option<string>)
    | NewBook(actor: string, bookID: string, name: string, currency: string, idFor: string -> string)

  predicate Supported(role: Role) { !role.OtherRole? }

  const MAX_NAME: nat := 120

  predicate NameOk(name: string) { 0 < |name| <= MAX_NAME }

  function Authorize(l: Ledger, actor: string, bookID: string): Result<(BookMember, Book), LedgerError> {
    if actor == "" || bookID == "" then Err(InvalidInput)
    else if MemberOf(l, bookID, actor).Err? then Err(AccessDenied)
    else if bookID !in l.books then Err(NotFound)
    else Ok((l.members[bookID][actor], l.books[bookID]))
  }

  /** Authorization for the use cases only owners and administrators may perform. */
  function Manager(l: Ledger, actor: string, bookID: string): Result<Book, LedgerError> {
    var auth :- Authorize(l, actor, bookID);
    if Manages(auth.0) then Ok(auth.1) else Err(AccessDenied)
  }

  function Fail<T>(e: LedgerError): Outcome<T> { Outcome([], Err(e)) }

  function Add(l: Ledger, q: Request): Outcome<BookMember>
    requires q.AddMember?
  {
    match Manager(l, q.actor, q.bookID)
    case Err(e) => Fail(e)
    case Ok(_) =>
      if q.userID == "" || !Supported(q.role) || q.role.Owner? then Fail(InvalidInput)
      else if MemberOf(l, q.bookID, q.userID).Ok? then Outcome([], MemberOf(l, q.bookID, q.userID))
      else
        var m := BookMember(q.bookID, q.userID, q.role, if q.displayName == "" then q.userID else q.displayName);
        Outcome([WithMember(l, m)], Ok(m))
  }

  /** The member a role change or a removal is about. `demotes`: the call takes an owner's role away. */
  ghost function Target(l: Ledger, actor: string, bookID: string, userID: string, roleOk: bool, demotes: bool)
    : (r: Result<(Book, BookMember), LedgerError>)
    ensures r.Ok? ==>
              && bookID in l.books && r.value.0 == l.books[bookID]
              && MemberOf(l, bookID, userID) == Ok(r.value.1)
              && (r.value.1.role.Owner? && demotes ==> Owners(ListMembers(l.members[bookID])) > 1)
  {
    var book :- Manager(l, actor, bookID);
    if userID == "" || !roleOk then Err(InvalidInput)
    else
      var target :- MemberOf(l, bookID, userID);
      if target.role.Owner? && demotes && Owners(ListMembers(l.members[bookID])) <= 1 then Err(InvalidInput)
      else Ok((book, target))
  }

  /** Who the primary owner becomes when `target`'s role becomes `role`: None when nothing changes. */
  ghost function Reconciled(inBook: map<string, BookMember>, primary: string, target: BookMember, role: Role)
    : Option<string>
  {
    if role.Owner? && primary != target.userID then Some(target.userID)
    else if target.role.Owner? && !role.Owner? && primary == target.userID then
      match FirstOther(ListMembers(inBook), target.userID)
      case None => None
      case Some(m) => Some(m.userID)
    else None
  }

  /** The primary owner steps down and nobody else is an owner. */
  ghost predicate Orphans(inBook: map<string, BookMember>, primary: string, target: BookMember, role: Role) {
    && target.role.Owner? && !role.Owner? && primary == target.userID
    && FirstOther(ListMembers(inBook), target.userID).None?
  }

  function PointBook(l: Ledger, book: Book, owner: Option<string>): seq<Ledger> {
    if owner.None? then [] else [WithBook(l, book.(ownerUserID := owner.value))]
  }

  ghost function Change(l: Ledger, q: Request): Outcome<BookMember>
    requires q.SetRole?
  {
    match Target(l, q.actor, q.bookID, q.userID, Supported(q.role), !q.role.Owner?)
    case Err(e) => Fail(e)
    case Ok((book, target)) =>
      var first := WithMember(l, target.(role := q.role));
      var owner := Reconciled(l.members[q.bookID], book.ownerUserID, target, q.role);
      Outcome([first] + PointBook(first, book, owner), Ok(target.(role := q.role)))
  }

  ghost function Remove(l: Ledger, q: Request): Outcome<()>
    requires q.RemoveMember?
  {
    match Target(l, q.actor, q.bookID, q.userID, true, true)
    case Err(e) => Fail(e)
    case Ok((book, target)) =>
      var first := WithoutMember(l, q.bookID, q.userID);
      // losing the primary owner is handled as a demotion to any lesser role
      var owner := Reconciled(l.members[q.bookID], book.ownerUserID, target, Viewer);
      Outcome([first] + PointBook(first, book, owner), Ok(()))
  }

  function Settings(l: Ledger, q: Request): Outcome<Book>
    requires q.SetBook?
  {
    match Manager(l, q.actor, q.bookID)
    case Err(e) => Fail(e)
    case Ok(book) =>
      if q.newName.None? && q.newCurrency.None? then Fail(InvalidInput)
      else if q.newName.Some? && !NameOk(q.newName.value) then Fail(InvalidInput)
      else if q.newCurrency.Some? && q.newCurrency.value !in Money.SUPPORTED then Fail(InvalidInput)
      else
        var named := if q.newName.Some? then book.(name := q.newName.value) else book;
        var updated := if q.newCurrency.Some? then named.(reportingCurrency := q.newCurrency.value) else named;
        Outcome([WithBook(l, updated)], Ok(updated))
  }

  function Create(l: Ledger, q: Request, specs: seq<CategorySpec>): Outcome<Book>
    requires q.NewBook?
  {
    if q.actor == "" || !NameOk(q.name) || q.currency !in Money.SUPPORTED then Fail(InvalidInput)
    else
      var book := Book(q.bookID, q.actor, q.name, q.currency);
      match AddBook(l, book, BookMember(q.bookID, q.actor, Owner, q.actor),
                    DefaultBookCategories(q.bookID, specs, q.idFor))
      case Err(e) => Fail(e)
      case Ok(l') => Outcome([l'], Ok(book))
  }

  // ---------------------------------------------------------------------------------------------
  // The service

  method AddBookMember(store: MemoryStore, q: Request) returns (r: Result<BookMember, LedgerError>)
    requires q.AddMember?
    modifies store
    ensures r == Add(old(store.Contents()), q).result
    ensures store.log == old(store.log) + Add(old(store.Contents()), q).writes
    ensures store.Contents() == Last(old(store.Contents()), Add(old(store.Contents()), q).writes)
  {
    var l := store.Contents();
    var book :- Manager(l, q.actor, q.bookID);
    if q.userID == "" || !Supported(q.role) || q.role.Owner? {
      return Err(InvalidInput);
    }
    if q.bookID in store.members && q.userID in store.members[q.bookID] {
      return Ok(store.members[q.bookID][q.userID]);
    }
    var member := BookMember(q.bookID, q.userID, q.role, q.displayName);
    if member.displayName == "" {
      member := member.(displayName := member.userID);
    }
    var created := store.CreateBookMember(member);
    return Ok(member);
  }

  /** The checks `UpdateBookMemberRole` and `RemoveBookMember` share, with the member list they read. */
  method FindTarget(store: MemoryStore, actor: string, bookID: string, userID: string, roleOk: bool, demotes: bool)
    returns (r: Result<(Book, BookMember), LedgerError>, members: seq<BookMember>)
    requires Keyed(store.Contents())
    ensures r == Target(store.Contents(), actor, bookID, userID, roleOk, demotes)
    ensures r.Ok? ==> members == ListMembers(store.members[bookID])
  {
    members := [];
    var manager := Manager(store.Contents(), actor, bookID);
    if manager.Err? {
      return Err(manager.error), [];
    }
    if userID == "" || !roleOk {
      return Err(InvalidInput), [];
    }
    var list := BookMembers(store, bookID);
    members := list.value;
    FindIsLookup(store.members[bookID], userID);
    var found := FindBookMember(members, userID);
    if found.None? {
      return Err(NotFound), [];
    }
    var owners := OwnerCount(members);
    if found.value.role.Owner? && demotes && owners <= 1 {
      return Err(InvalidInput), [];
    }
    return Ok((manager.value, found.value)), members;
  }

  method UpdateBookMemberRole(store: MemoryStore, q: Request) returns (r: Result<BookMember, LedgerError>)
    requires q.SetRole? && Keyed(store.Contents())
    modifies store
    ensures r == Change(old(store.Contents()), q).result
    ensures store.log == old(store.log) + Change(old(store.Contents()), q).writes
    ensures store.Contents() == Last(old(store.Contents()), Change(old(store.Contents()), q).writes)
  {
    ghost var l := store.Contents();
    var target, members := FindTarget(store, q.actor, q.bookID, q.userID, Supported(q.role), !q.role.Owner?);
    if target.Err? {
      return Err(target.error);
    }
    var (book, previous) := target.value;
    TargetKeepsAnOwner(l, q.actor, q.bookID, q.userID, Supported(q.role), !q.role.Owner?, q.role);
    var updated := previous.(role := q.role);
    var written := store.UpdateBookMember(updated);
    ghost var first := WithMember(l, updated);
    assert store.Contents() == first && store.log == old(store.log) + [first];
    var reconciled := ReconcilePrimaryOwner(store, l.members[q.bookID], book, previous, updated, members);
    assert reconciled.Ok? && book.id in first.books;
    return Ok(updated);
  }

  /**
   Keeps the primary owner an owner after `previous` became `updated`. It fails, without a write, when
   the primary owner steps down and no other owner is listed, or when the book is not stored.
   */
  method ReconcilePrimaryOwner(store: MemoryStore, ghost inBook: map<string, BookMember>, book: Book,
                               previous: BookMember, updated: BookMember, members: seq<BookMember>)
    returns (r: Result<(), LedgerError>)
    requires members == ListMembers(inBook) && updated.userID == previous.userID
    modifies store
    ensures var ws := PointBook(old(store.Contents()), book,
                                Reconciled(inBook, book.ownerUserID, previous, updated.role));
            if r.Ok? then store.log == old(store.log) + ws && store.Contents() == Last(old(store.Contents()), ws)
            else store.log == old(store.log) && store.Contents() == old(store.Contents())
    ensures r.Err? <==>
              || Orphans(inBook, book.ownerUserID, previous, updated.role)
              || (Reconciled(inBook, book.ownerUserID, previous, updated.role).Some? && book.id !in old(store.books))
  {
    var owner := book.ownerUserID;
    if updated.role.Owner? && book.ownerUserID != updated.userID {
      owner := updated.userID;
    } else if previous.role.Owner? && !updated.role.Owner? && book.ownerUserID == previous.userID {
      var replacement := FirstOtherOwner(members, previous.userID);
      if replacement.None? {
        return Err(InvalidInput);
      }
      owner := replacement.value.userID;
    } else {
      return Ok(());
    }
    var written := store.UpdateBook(book.(ownerUserID := owner));
    return if written.Ok? then Ok(()) else Err(written.error);
  }

  method RemoveBookMember(store: MemoryStore, q: Request) returns (r: Result<(), LedgerError>)
    requires q.RemoveMember? && Keyed(store.Contents())
    modifies store
    ensures r == Remove(old(store.Contents()), q).result
    ensures store.log == old(store.log) + Remove(old(store.Contents()), q).writes
    ensures store.Contents() == Last(old(store.Contents()), Remove(old(store.Contents()), q).writes)
  {
    ghost var l := store.Contents();
    var found, members := FindTarget(store, q.actor, q.bookID, q.userID, true, true);
    if found.Err? {
      return Err(found.error);
    }
    var (book, target) := found.value;
    TargetKeepsAnOwner(l, q.actor, q.bookID, q.userID, true, true, Viewer);
    ghost var owner := Reconciled(l.members[q.bookID], book.ownerUserID, target, Viewer);
    ghost var first := WithoutMember(l, q.bookID, q.userID);
    assert Remove(l, q) == Outcome([first] + PointBook(first, book, owner), Ok(()));
    LastOfTwo(l, first, book, owner);
    var deleted := store.DeleteBookMember(q.bookID, target.userID);
    assert store.Contents() == first && store.log == old(store.log) + [first];
    if target.role.Owner? && book.ownerUserID == target.userID {
      var replacement := FirstOtherOwner(members, target.userID);
      assert owner == Some(replacement.value.userID) && book.id in first.books;
      var written := store.UpdateBook(book.(ownerUserID := replacement.value.userID));
    } else {
      assert owner == None;
    }
    return Ok(());
  }

  lemma LastOfTwo(l: Ledger, first: Ledger, book: Book, owner: Option<string>)
    ensures Last(l, [first] + PointBook(first, book, owner)) ==
            if owner.Some? then WithBook(first, book.(ownerUserID := owner.value)) else first
    ensures forall log: seq<Ledger> :: log + ([first] + PointBook(first, book, owner)) ==
              if owner.Some? then log + [first] + [WithBook(first, book.(ownerUserID := owner.value))] else log + [first]
  {}

  method UpdateBook(store: MemoryStore, q: Request) returns (r: Result<Book, LedgerError>)
    requires q.SetBook? && Keyed(store.Contents())
    modifies store
    ensures r == Settings(old(store.Contents()), q).result
    ensures store.log == old(store.log) + Settings(old(store.Contents()), q).writes
    ensures store.Contents() == Last(old(store.Contents()), Settings(old(store.Contents()), q).writes)
  {
    var book :- Manager(store.Contents(), q.actor, q.bookID);
    if q.newName.None? && q.newCurrency.None? {
      return Err(InvalidInput);
    }
    if q.newName.Some? && !NameOk(q.newName.value) {
      return Err(InvalidInput);
    }
    if q.newCurrency.Some? && q.newCurrency.value !in Money.SUPPORTED {
      return Err(InvalidInput);
    }
    var updated := book;
    if q.newName.Some? {
      updated := updated.(name := q.newName.value);
    }
    if q.newCurrency.Some? {
      updated := updated.(reportingCurrency := q.newCurrency.value);
    }
    var written := store.UpdateBook(updated);
    return Ok(updated);
  }

  method CreateBook(store: MemoryStore, q: Request, specs: seq<CategorySpec>) returns (r: Result<Book, LedgerError>)
    requires q.NewBook?
    modifies store
    ensures r == Create(old(store.Contents()), q, specs).result
    ensures store.log == old(store.log) + Create(old(store.Contents()), q, specs).writes
    ensures store.Contents() == Last(old(store.Contents()), Create(old(store.Contents()), q, specs).writes)
  {
    if q.actor == "" || !NameOk(q.name) || q.currency !in Money.SUPPORTED {
      return Err(InvalidInput);
    }
    var book := Book(q.bookID, q.actor, q.name, q.currency);
    var owner := BookMember(book.id, q.actor, Owner, q.actor);
    var created := store.CreateBook(book, owner, DefaultBookCategories(book.id, specs, q.idFor));
    if created.Err? {
      return Err(created.error);
    }
    return Ok(book);
  }

  // ---------------------------------------------------------------------------------------------
  // What the calls do, read off the ledger and the request

  /** An owner or administrator of a stored book. */
  ghost predicate MayManage(l: Ledger, actor: string, bookID: string) {
    actor != "" && bookID != "" && bookID in l.books && IsManager(l, bookID, actor)
  }

  ghost predicate IsMember(l: Ledger, bookID: string, userID: string) {
    bookID in l.members && userID in l.members[bookID]
  }

  ghost predicate OwnsBook(l: Ledger, bookID: string, userID: string) {
    IsMember(l, bookID, userID) && l.members[bookID][userID].role == Owner
  }

  /** An owner of the book besides the user, first in the order of user ids. */
  ghost predicate IsFirstOther(l: Ledger, bookID: string, userID: string, other: string) {
    && OwnsBook(l, bookID, other) && other != userID
    && forall v :: OwnsBook(l, bookID, v) && v != userID ==> LexAtMost(other, v)
  }

  /** The ledgers have the same members, but for this one of this book. */
  ghost predicate SameOtherMembers(l: Ledger, l': Ledger, bookID: string, userID: string) {
    forall b, u :: b != bookID || u != userID ==>
      (IsMember(l', b, u) <==> IsMember(l, b, u)) && (IsMember(l, b, u) ==> l'.members[b][u] == l.members[b][u])
  }

  /** Entries, categories, accounts and rates are the same. */
  ghost predicate SameRest(l: Ledger, l': Ledger) {
    l'.entries == l.entries && l'.categories == l.categories && l'.accounts == l.accounts && l'.rates == l.rates
  }

  /** The book's primary owner is now `owner`, and nothing else about any book has changed. */
  ghost predicate PointsTo(l: Ledger, l': Ledger, bookID: string, owner: string)
    requires bookID in l.books
  {
    && l'.books.Keys == l.books.Keys && (forall b :: b in l.books && b != bookID ==> l'.books[b] == l.books[b])
    && l'.books[bookID].id == l.books[bookID].id && l'.books[bookID].ownerUserID == owner
    && l'.books[bookID].name == l.books[bookID].name
    && l'.books[bookID].reportingCurrency == l.books[bookID].reportingCurrency
  }

  lemma ManagerIff(l: Ledger, actor: string, bookID: string)
    ensures Manager(l, actor, bookID).Ok? <==> MayManage(l, actor, bookID)
    ensures Manager(l, actor, bookID).Ok? ==> Manager(l, actor, bookID).value == l.books[bookID]
  {}

  /**
   Exactly when a member can be added, and as what. Someone who is a member already stays as they are;
   nobody is added as an owner.
   */
  lemma AddMeans(l: Ledger, q: Request)
    requires q.AddMember?
    ensures Add(l, q).result.Ok? <==>
              MayManage(l, q.actor, q.bookID) && q.userID != "" && q.role in {Administrator, Member, Viewer}
    ensures Add(l, q).result.Ok? ==>
              var l', m := Last(l, Add(l, q).writes), Add(l, q).result.value;
              if IsMember(l, q.bookID, q.userID) then l' == l && m == l.members[q.bookID][q.userID]
              else
                && IsMember(l', q.bookID, q.userID) && l'.members[q.bookID][q.userID] == m
                && m.bookID == q.bookID && m.userID == q.userID && m.role == q.role
                && m.displayName == (if q.displayName == "" then q.userID else q.displayName)
                && SameOtherMembers(l, l', q.bookID, q.userID) && l'.books == l.books && SameRest(l, l')
  {
    ManagerIff(l, q.actor, q.bookID);
  }

  lemma SettingsMean(l: Ledger, q: Request)
    requires q.SetBook?
    ensures Settings(l, q).result.Ok? <==>
              && MayManage(l, q.actor, q.bookID) && (q.newName != None || q.newCurrency != None)
              && (q.newName.Some? ==> 0 < |q.newName.value| <= 120)
              && (q.newCurrency.Some? ==> q.newCurrency.value in {"USD", "EUR", "CNY", "CAD"})
    ensures Settings(l, q).result.Ok? ==>
              var l', b, before := Last(l, Settings(l, q).writes), Settings(l, q).result.value, l.books[q.bookID];
              && b.id == before.id && b.ownerUserID == before.ownerUserID
              && b.name == (if q.newName.Some? then q.newName.value else before.name)
              && b.reportingCurrency == (if q.newCurrency.Some? then q.newCurrency.value else before.reportingCurrency)
              && (before.id == q.bookID ==> l'.books == l.books[q.bookID := b])
              && l'.members == l.members && SameRest(l, l')
  {
    ManagerIff(l, q.actor, q.bookID);
  }

  /** Who can create a book, and that its creator becomes its owner. */
  lemma CreateMeans(l: Ledger, q: Request, specs: seq<CategorySpec>)
    requires q.NewBook?
    ensures Create(l, q, specs).result.Ok? <==>
              && q.actor != "" && 0 < |q.name| <= 120 && q.currency in {"USD", "EUR", "CNY", "CAD"}
              && q.bookID !in l.books && !IsMember(l, q.bookID, q.actor)
              && CanAddCategories(l, q.bookID, DefaultBookCategories(q.bookID, specs, q.idFor))
    ensures Create(l, q, specs).result.Ok? ==>
              var l', b := Last(l, Create(l, q, specs).writes), Create(l, q, specs).result.value;
              && b.id == q.bookID && b.ownerUserID == q.actor && b.name == q.name && b.reportingCurrency == q.currency
              && l'.books == l.books[q.bookID := b] && OwnsBook(l', q.bookID, q.actor)
              && SameOtherMembers(l, l', q.bookID, q.actor)
              && l'.categories == l.categories + DefaultBookCategories(q.bookID, specs, q.idFor)
              && l'.entries == l.entries && l'.accounts == l.accounts && l'.rates == l.rates
  {}

  lemma {:induction false} FirstOtherIsFirst(ms: seq<BookMember>, excluded: string)
    requires ByUserID(ms) && FirstOther(ms, excluded).Some?
    ensures forall i :: 0 <= i < |ms| && ms[i].userID != excluded && ms[i].role.Owner? ==>
              LexAtMost(FirstOther(ms, excluded).value.userID, ms[i].userID)
  {
    if ms[0].userID != excluded && ms[0].role.Owner? {
      LexAtMostIsTotalOrder(ms[0].userID, ms[0].userID, ms[0].userID);
    } else {
      FirstOtherIsFirst(ms[1..], excluded);
    }
  }

  /** The list's answers to who else owns the book, read off the ledger. */
  lemma OtherOwners(l: Ledger, bookID: string, userID: string)
    requires Keyed(l) && bookID in l.members
    ensures var list := ListMembers(l.members[bookID]); var other := FirstOther(list, userID);
            && (other.Some? ==> IsFirstOther(l, bookID, userID, other.value.userID))
            && ((exists v :: OwnsBook(l, bookID, v) && v != userID) ==> other.Some?)
            && (OwnsBook(l, bookID, userID) ==> (Owners(list) > 1 <==> other.Some?))
  {
    var inBook := l.members[bookID];
    var list := ListMembers(inBook);
    ListIsSorted(inBook);
    AnotherOwner(inBook, userID);
    if FirstOther(list, userID).Some? { FirstOtherIsFirst(list, userID); }
    forall v | OwnsBook(l, bookID, v) && v != userID
      ensures FirstOther(list, userID).Some? && LexAtMost(FirstOther(list, userID).value.userID, v)
    {
      assert inBook[v] in list;
    }
    if OwnsBook(l, bookID, userID) && FirstOther(list, userID).Some? {
      TwoOwners(list, inBook[userID], FirstOther(list, userID).value);
    }
  }

  lemma {:induction false} TwoOwners(ms: seq<BookMember>, m: BookMember, n: BookMember)
    requires m in ms && n in ms && m.userID != n.userID && m.role.Owner? && n.role.Owner?
    ensures Owners(ms) > 1
  {
    var init, last := ms[..|ms| - 1], ms[|ms| - 1];
    if m in init && n in init {
      TwoOwners(init, m, n);
    } else {
      assert m in init || n in init;
      assert Owners(init) > 0;
    }
  }

  lemma TargetIff(l: Ledger, actor: string, bookID: string, userID: string, roleOk: bool, demotes: bool)
    requires Keyed(l)
    ensures Target(l, actor, bookID, userID, roleOk, demotes).Ok? <==>
              && MayManage(l, actor, bookID) && userID != "" && roleOk && IsMember(l, bookID, userID)
              && (OwnsBook(l, bookID, userID) && demotes ==> exists v :: OwnsBook(l, bookID, v) && v != userID)
    ensures Target(l, actor, bookID, userID, roleOk, demotes).Ok? ==>
              && Target(l, actor, bookID, userID, roleOk, demotes).value.0 == l.books[bookID]
              && Target(l, actor, bookID, userID, roleOk, demotes).value.1 == l.members[bookID][userID]
  {
    ManagerIff(l, actor, bookID);
    if IsMember(l, bookID, userID) { OtherOwners(l, bookID, userID); }
  }

  /**
   Who the primary owner is afterwards: whoever was made an owner; another owner, the first by user id, when
   the primary owner stops being one; and otherwise the same as before.
   */
  ghost predicate IsNewPrimary(l: Ledger, bookID: string, userID: string, isOwner: bool, owner: string)
    requires bookID in l.books
  {
    if isOwner then owner == userID
    else if OwnsBook(l, bookID, userID) && l.books[bookID].ownerUserID == userID then
      IsFirstOther(l, bookID, userID, owner)
    else owner == l.books[bookID].ownerUserID
  }

  lemma ReconciledIsNewPrimary(l: Ledger, bookID: string, userID: string, role: Role)
    requires Keyed(l) && bookID in l.books && IsMember(l, bookID, userID)
    requires OwnsBook(l, bookID, userID) && role != Owner ==> exists v :: OwnsBook(l, bookID, v) && v != userID
    ensures var primary := l.books[bookID].ownerUserID;
            var owner := Reconciled(l.members[bookID], primary, l.members[bookID][userID], role);
            IsNewPrimary(l, bookID, userID, role == Owner, if owner.Some? then owner.value else primary)
  {
    OtherOwners(l, bookID, userID);
  }

  /** Writing the book again changes its primary owner and nothing else. */
  lemma LastPoints(l: Ledger, first: Ledger, bookID: string, owner: Option<string>)
    requires Keyed(l) && bookID in l.books && first.books == l.books
    ensures var l' := Last(l, [first] + PointBook(first, l.books[bookID], owner));
            && l'.members == first.members && SameRest(first, l')
            && PointsTo(l, l', bookID, if owner.Some? then owner.value else l.books[bookID].ownerUserID)
  {}

  /**
   Exactly when a role can be changed: by a manager, to a role there is, and not from the last owner. The
   member then has that role, and the book the primary owner that goes with it.
   */
  lemma ChangeMeans(l: Ledger, q: Request)
    requires q.SetRole? && Keyed(l)
    ensures Change(l, q).result.Ok? <==>
              && MayManage(l, q.actor, q.bookID) && q.userID != "" && IsMember(l, q.bookID, q.userID)
              && q.role in {Owner, Administrator, Member, Viewer}
              && (OwnsBook(l, q.bookID, q.userID) && q.role != Owner ==>
                    exists v :: OwnsBook(l, q.bookID, v) && v != q.userID)
    ensures Change(l, q).result.Ok? ==>
              var l', m := Last(l, Change(l, q).writes), Change(l, q).result.value;
              && m.role == q.role && m.(role := l.members[q.bookID][q.userID].role) == l.members[q.bookID][q.userID]
              && IsMember(l', q.bookID, q.userID) && l'.members[q.bookID][q.userID] == m
              && SameOtherMembers(l, l', q.bookID, q.userID) && SameRest(l, l')
              && exists owner :: IsNewPrimary(l, q.bookID, q.userID, q.role == Owner, owner)
                                 && PointsTo(l, l', q.bookID, owner)
  {
    TargetIff(l, q.actor, q.bookID, q.userID, Supported(q.role), !q.role.Owner?);
    if Change(l, q).result.Ok? {
      var book, target := l.books[q.bookID], l.members[q.bookID][q.userID];
      var first, owner := WithMember(l, target.(role := q.role)),
                          Reconciled(l.members[q.bookID], book.ownerUserID, target, q.role);
      ReconciledIsNewPrimary(l, q.bookID, q.userID, q.role);
      LastPoints(l, first, q.bookID, owner);
      assert SameOtherMembers(l, first, q.bookID, q.userID);
    }
  }

  /** Exactly when a member can be removed, and who the primary owner is then. */
  lemma RemoveMeans(l: Ledger, q: Request)
    requires q.RemoveMember? && Keyed(l)
    ensures Remove(l, q).result.Ok? <==>
              && MayManage(l, q.actor, q.bookID) && q.userID != "" && IsMember(l, q.bookID, q.userID)
              && (OwnsBook(l, q.bookID, q.userID) ==> exists v :: OwnsBook(l, q.bookID, v) && v != q.userID)
    ensures Remove(l, q).result.Ok? ==>
              var l' := Last(l, Remove(l, q).writes);
              && !IsMember(l', q.bookID, q.userID)
              && SameOtherMembers(l, l', q.bookID, q.userID) && SameRest(l, l')
              && exists owner :: IsNewPrimary(l, q.bookID, q.userID, false, owner) && PointsTo(l, l', q.bookID, owner)
  {
    TargetIff(l, q.actor, q.bookID, q.userID, true, true);
    if Remove(l, q).result.Ok? {
      var book, target := l.books[q.bookID], l.members[q.bookID][q.userID];
      var first, owner := WithoutMember(l, q.bookID, q.userID),
                          Reconciled(l.members[q.bookID], book.ownerUserID, target, Viewer);
      ReconciledIsNewPrimary(l, q.bookID, q.userID, Viewer);
      LastPoints(l, first, q.bookID, owner);
      assert SameOtherMembers(l, first, q.bookID, q.userID);
    }
  }

  // ---------------------------------------------------------------------------------------------
  // Ownership

  /** Rows are stored under their own ids. */
  ghost predicate Keyed(l: Ledger) {
    && (forall b :: b in l.books ==> l.books[b].id == b)
    && (forall b, u :: b in l.members && u in l.members[b] ==> l.members[b][u].bookID == b && l.members[b][u].userID == u)
  }

  ghost predicate IsOwner(l: Ledger, bookID: string, userID: string) {
    MemberOf(l, bookID, userID).Ok? && l.members[bookID][userID].role.Owner?
  }

  /** Every book has an owner among its members. */
  ghost predicate HaveOwners(l: Ledger) {
    forall b :: b in l.books ==> exists u :: IsOwner(l, b, u)
  }

  /** And its primary owner is one of them. */
  ghost predicate Owned(l: Ledger) {
    Keyed(l) && forall b :: b in l.books ==> IsOwner(l, b, l.books[b].ownerUserID)
  }

  /** Searching the list is looking the member up. */
  lemma FindIsLookup(inBook: map<string, BookMember>, u: string)
    requires forall v :: v in inBook ==> inBook[v].userID == v
    ensures Find(ListMembers(inBook), u) == if u in inBook then Some(inBook[u]) else None
  {
    var ids := SortedKeys(inBook.Keys);
    SortedKeysDistinct(inBook.Keys);
    if u in inBook {
      var i :| 0 <= i < |ids| && ids[i] == u;
      FindAt(ListMembers(inBook), ids, u, i);
    } else {
      FindAt(ListMembers(inBook), ids, u, |ids|);
    }
  }

  lemma {:induction false} FindAt(ms: seq<BookMember>, ids: seq<string>, u: string, i: nat)
    requires |ms| == |ids| && i <= |ids|
    requires forall j :: 0 <= j < |ids| ==> ms[j].userID == ids[j]
    requires forall j :: 0 <= j < i ==> ids[j] != u
    requires i < |ids| ==> ids[i] == u
    ensures Find(ms, u) == if i < |ms| then Some(ms[i]) else None
  {
    if i > 0 { FindAt(ms[1..], ids[1..], u, i - 1); }
  }

  /** With more than one owner in the list there is one besides any given user. */
  lemma AnotherOwner(inBook: map<string, BookMember>, u: string)
    requires forall v :: v in inBook ==> inBook[v].userID == v
    ensures var other := FirstOther(ListMembers(inBook), u);
            && (Owners(ListMembers(inBook)) > 1 ==> other.Some?)
            && (other.Some? ==>
                  && other.value.userID != u && other.value.role.Owner?
                  && other.value.userID in inBook && inBook[other.value.userID] == other.value)
  {
    var ids, list := SortedKeys(inBook.Keys), ListMembers(inBook);
    forall i | 0 <= i < |ids| ensures ids[i] in inBook && list[i].userID == ids[i] {
      assert ids[i] in ids;
    }
    SortedKeysDistinct(inBook.Keys);
    if FirstOther(list, u).None? {
      OnlyOwner(list, u);
    }
  }

  lemma {:induction false} OnlyOwner(list: seq<BookMember>, u: string)
    requires forall i, j :: 0 <= i < j < |list| ==> list[i].userID != list[j].userID
    requires forall i :: 0 <= i < |list| ==> list[i].userID == u || !list[i].role.Owner?
    ensures Owners(list) <= 1
  {
    if list != [] {
      var init := list[..|list| - 1];
      if list[|list| - 1].role.Owner? {
        assert Owners(init) == 0;
      } else {
        OnlyOwner(init, u);
      }
    }
  }

  /** The checks leave another owner to point the book to. */
  lemma TargetKeepsAnOwner(l: Ledger, actor: string, bookID: string, userID: string, roleOk: bool, demotes: bool,
                           role: Role)
    requires Keyed(l) && Target(l, actor, bookID, userID, roleOk, demotes).Ok? && (!role.Owner? ==> demotes)
    ensures var (book, target) := Target(l, actor, bookID, userID, roleOk, demotes).value;
            book.id == bookID && target.userID == userID && !Orphans(l.members[bookID], book.ownerUserID, target, role)
  {
    AnotherOwner(l.members[bookID], userID);
  }

  lemma OwnedHaveOwners(l: Ledger)
    requires Owned(l)
    ensures HaveOwners(l)
  {
    forall b | b in l.books ensures exists u :: IsOwner(l, b, u) {
      assert IsOwner(l, b, l.books[b].ownerUserID);
    }
  }

  /** The two ledgers have the same books and differ in the members of `bookID` only. */
  ghost predicate DifferInMembers(l: Ledger, l': Ledger, bookID: string) {
    && l'.books == l.books
    && (forall b :: b != bookID ==> (b in l'.members <==> b in l.members))
    && (forall b :: b != bookID && b in l.members ==> l'.members[b] == l.members[b])
  }

  /** A write to one book's members that leaves it some owner leaves every book an owner. */
  lemma MemberWriteKeepsOwners(l: Ledger, l': Ledger, bookID: string, owner: string)
    requires Owned(l) && DifferInMembers(l, l', bookID) && Keyed(l') && IsOwner(l', bookID, owner)
    ensures HaveOwners(l')
    ensures bookID in l.books && l.books[bookID].ownerUserID == owner ==> Owned(l')
    ensures bookID in l.books ==> Owned(WithBook(l', l.books[bookID].(ownerUserID := owner)))
  {
    forall b | b in l.books ensures exists u :: IsOwner(l', b, u) {
      var u := if b == bookID then owner else l.books[b].ownerUserID;
      assert IsOwner(l, b, l.books[b].ownerUserID);
      assert IsOwner(l', b, u);
    }
    forall b | b in l.books && b != bookID ensures IsOwner(l', b, l'.books[b].ownerUserID) {
      assert IsOwner(l, b, l.books[b].ownerUserID);
    }
  }

  lemma MemberWrites(l: Ledger, m: BookMember)
    requires Keyed(l)
    ensures Keyed(WithMember(l, m)) && DifferInMembers(l, WithMember(l, m), m.bookID)
    ensures forall u :: u != m.userID ==> IsOwner(WithMember(l, m), m.bookID, u) == IsOwner(l, m.bookID, u)
    ensures IsOwner(WithMember(l, m), m.bookID, m.userID) == m.role.Owner?
    ensures m.bookID in l.members ==>
              && Keyed(WithoutMember(l, m.bookID, m.userID))
              && DifferInMembers(l, WithoutMember(l, m.bookID, m.userID), m.bookID)
              && forall u :: u != m.userID ==>
                   IsOwner(WithoutMember(l, m.bookID, m.userID), m.bookID, u) == IsOwner(l, m.bookID, u)
  {}

  /** The contents after each write of a call. */
  ghost function Writes(l: Ledger, q: Request, specs: seq<CategorySpec>): seq<Ledger>
    requires Keyed(l)
  {
    match q
    case AddMember(_, _, _, _, _) => Add(l, q).writes
    case SetRole(_, _, _, _) => Change(l, q).writes
    case RemoveMember(_, _, _) => Remove(l, q).writes
    case SetBook(_, _, _, _) => Settings(l, q).writes
    case NewBook(_, _, _, _, _) => Create(l, q, specs).writes
  }

  ghost predicate Safe(l: Ledger, ws: seq<Ledger>) {
    (forall i :: 0 <= i < |ws| ==> HaveOwners(ws[i])) && Owned(Last(l, ws))
  }

  lemma AddIsSafe(l: Ledger, q: Request)
    requires Owned(l) && q.AddMember?
    ensures Safe(l, Add(l, q).writes)
  {
    var o := Add(l, q);
    if o.writes != [] {
      var owner := l.books[q.bookID].ownerUserID;
      assert IsOwner(l, q.bookID, owner);
      MemberWrites(l, o.result.value);
      MemberWriteKeepsOwners(l, o.writes[0], q.bookID, owner);
    }
  }

  /** Rewriting or deleting `target` and then naming the primary owner `Reconciled` picks is safe. */
  lemma ReconciledIsSafe(l: Ledger, first: Ledger, target: BookMember, role: Role)
    requires Owned(l) && target.bookID in l.books && MemberOf(l, target.bookID, target.userID) == Ok(target)
    requires Keyed(first) && DifferInMembers(l, first, target.bookID)
    requires forall u :: u != target.userID ==> IsOwner(first, target.bookID, u) == IsOwner(l, target.bookID, u)
    requires role.Owner? ==> IsOwner(first, target.bookID, target.userID)
    requires target.role.Owner? && !role.Owner? ==> Owners(ListMembers(l.members[target.bookID])) > 1
    ensures var book := l.books[target.bookID];
            var owner := Reconciled(l.members[target.bookID], book.ownerUserID, target, role);
            Safe(l, [first] + PointBook(first, book, owner))
  {
    var book, inBook := l.books[target.bookID], l.members[target.bookID];
    var reconciled := Reconciled(inBook, book.ownerUserID, target, role);
    var owner := if reconciled.Some? then reconciled.value else book.ownerUserID;
    ReconciledOwns(l, first, target, role, owner);
    MemberWriteKeepsOwners(l, first, target.bookID, owner);
    if reconciled.Some? { OwnedHaveOwners(WithBook(first, book.(ownerUserID := owner))); }
    WritesAreSafe(l, first, PointBook(first, book, reconciled));
  }

  /** A member write and at most one write of the book after it. */
  lemma WritesAreSafe(l: Ledger, first: Ledger, rest: seq<Ledger>)
    requires HaveOwners(first) && |rest| <= 1
    requires if rest == [] then Owned(first) else HaveOwners(rest[0]) && Owned(rest[0])
    ensures Safe(l, [first] + rest)
  {}

  lemma ReconciledOwns(l: Ledger, first: Ledger, target: BookMember, role: Role, owner: string)
    requires Owned(l) && target.bookID in l.books && MemberOf(l, target.bookID, target.userID) == Ok(target)
    requires forall u :: u != target.userID ==> IsOwner(first, target.bookID, u) == IsOwner(l, target.bookID, u)
    requires role.Owner? ==> IsOwner(first, target.bookID, target.userID)
    requires target.role.Owner? && !role.Owner? ==> Owners(ListMembers(l.members[target.bookID])) > 1
    requires var primary := l.books[target.bookID].ownerUserID;
             var reconciled := Reconciled(l.members[target.bookID], primary, target, role);
             owner == if reconciled.Some? then reconciled.value else primary
    ensures IsOwner(first, target.bookID, owner)
  {
    assert IsOwner(l, target.bookID, l.books[target.bookID].ownerUserID);
    AnotherOwner(l.members[target.bookID], target.userID);
    assert owner != target.userID ==> IsOwner(l, target.bookID, owner);
  }

  lemma ChangeIsSafe(l: Ledger, q: Request)
    requires Owned(l) && q.SetRole?
    ensures Safe(l, Change(l, q).writes)
  {
    var found := Target(l, q.actor, q.bookID, q.userID, Supported(q.role), !q.role.Owner?);
    if found.Ok? {
      var target := found.value.1;
      MemberWrites(l, target.(role := q.role));
      ReconciledIsSafe(l, WithMember(l, target.(role := q.role)), target, q.role);
    }
  }

  lemma RemoveIsSafe(l: Ledger, q: Request)
    requires Owned(l) && q.RemoveMember?
    ensures Safe(l, Remove(l, q).writes)
  {
    var found := Target(l, q.actor, q.bookID, q.userID, true, true);
    if found.Ok? {
      var target := found.value.1;
      MemberWrites(l, target);
      ReconciledIsSafe(l, WithoutMember(l, q.bookID, q.userID), target, Viewer);
    }
  }

  lemma CreateIsSafe(l: Ledger, q: Request, specs: seq<CategorySpec>)
    requires Owned(l) && q.NewBook?
    ensures Safe(l, Create(l, q, specs).writes)
  {
    var o := Create(l, q, specs);
    if o.writes != [] {
      var m := BookMember(q.bookID, q.actor, Owner, q.actor);
      MemberWrites(l, m);
      var l' := o.writes[0];
      assert l'.members == WithMember(l, m).members;
      forall b | b in l'.books ensures IsOwner(l', b, l'.books[b].ownerUserID) {
        if b != q.bookID { assert IsOwner(l, b, l.books[b].ownerUserID); }
      }
      OwnedHaveOwners(l');
    }
  }

  /**
   After every single write of every call each book still has an owner, and when the call returns its
   primary owner is one.
   */
  lemma CallKeepsOwners(l: Ledger, q: Request, specs: seq<CategorySpec>)
    requires Owned(l)
    ensures Safe(l, Writes(l, q, specs))
  {
    match q
    case AddMember(_, _, _, _, _) => AddIsSafe(l, q);
    case SetRole(_, _, _, _) => ChangeIsSafe(l, q);
    case RemoveMember(_, _, _) => RemoveIsSafe(l, q);
    case NewBook(_, _, _, _, _) => CreateIsSafe(l, q, specs);
    case SetBook(_, _, _, _) =>
      var ws := Settings(l, q).writes;
      if ws != [] {
        forall b | b in l.books ensures IsOwner(ws[0], b, ws[0].books[b].ownerUserID) {
          assert IsOwner(l, b, l.books[b].ownerUserID);
        }
        OwnedHaveOwners(ws[0]);
      }
  }

  /** Every state a run of calls passes through, write by write. */
  ghost function History(l: Ledger, run: seq<Request>, specs: seq<CategorySpec>): seq<Ledger>
    requires Owned(l)
    decreases |run|
  {
    if run == [] then []
    else
      CallKeepsOwners(l, run[0], specs);
      var ws := Writes(l, run[0], specs);
      ws + History(Last(l, ws), run[1..], specs)
  }

  /** Over every run no book is ever without an owner, not even between two writes of one call. */
  lemma {:induction false} RunKeepsOwners(l: Ledger, run: seq<Request>, specs: seq<CategorySpec>)
    requires Owned(l)
    ensures Safe(l, History(l, run, specs))
    decreases |run|
  {
    if run != [] {
      CallKeepsOwners(l, run[0], specs);
      RunKeepsOwners(Last(l, Writes(l, run[0], specs)), run[1..], specs);
    }
  }
}
