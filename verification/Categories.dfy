/**
 The category tree. Categories live in one flat list and name their parents by id; the walk that
 rejects cycles terminates only because every earlier edit kept the list a forest.

 Ids and names are taken as already trimmed. Ids drawn by the service are non-empty.
 */
module Categories {
  import opened Wrappers
  import opened LedgerStore
  import opened Seed
  import Books

  // ---------------------------------------------------------------------------------------------
  // Parent maps

  type Parents = map<string, string>

  /** `categoryParents`: the parent id of every category in the list. */
  function ParentsOf(cs: seq<Category>): Parents {
    if cs == [] then map[] else ParentsOf(cs[..|cs| - 1])[cs[|cs| - 1].id := cs[|cs| - 1].parentID]
  }

  /** The id k steps up from `id`. A missing id reads as the empty parent, as a Go map does. */
  function Up(par: Parents, id: string, k: nat): string
    decreases k
  {
    if k == 0 then id else Up(par, if id in par then par[id] else "", k - 1)
  }

  /** The walk up from `id` stays among the listed ids and ends within n steps. */
  predicate Rooted(par: Parents, id: string, n: nat)
    decreases n
  {
    id == "" || (id in par && n > 0 && Rooted(par, par[id], n - 1))
  }

  ghost predicate Forest(par: Parents) {
    "" !in par && forall id :: id in par ==> exists n: nat :: Rooted(par, id, n)
  }

  /** `id` is `above` itself or one of its descendants. */
  ghost predicate Below(par: Parents, id: string, above: string) {
    exists k: nat :: Up(par, id, k) == above
  }

  lemma {:induction false} UpShifts(par: Parents, id: string, j: nat, k: nat)
    ensures Up(par, id, j + k) == Up(par, Up(par, id, j), k)
    decreases j
  {
    if j > 0 { UpShifts(par, if id in par then par[id] else "", j - 1, k); }
  }

  lemma {:induction false} NothingAboveRoot(par: Parents, k: nat)
    requires "" !in par
    ensures Up(par, "", k) == ""
  {
    if k > 0 { NothingAboveRoot(par, k - 1); }
  }

  /** `above` is a proper ancestor of `id`. */
  ghost predicate ProperlyBelow(par: Parents, id: string, above: string) {
    exists k: nat :: k >= 1 && Up(par, id, k) == above
  }

  ghost predicate Closed(par: Parents) {
    forall id :: id in par ==> par[id] == "" || par[id] in par
  }

  ghost predicate Acyclic(par: Parents) {
    forall id :: id in par ==> !ProperlyBelow(par, id, id)
  }

  /** What `Forest` means: parents are listed, and no category is its own proper ancestor. */
  lemma ForestIffAcyclic(par: Parents)
    requires "" !in par
    ensures Forest(par) <==> Closed(par) && Acyclic(par)
  {
    if Forest(par) {
      forall id | id in par ensures par[id] == "" || par[id] in par {
        var n: nat :| Rooted(par, id, n);
        assert Rooted(par, par[id], n - 1);
      }
      forall id, k: nat | id in par && k >= 1 ensures Up(par, id, k) != id {
        var n: nat :| Rooted(par, id, n);
        RootedIsOffCycles(par, id, n, k);
      }
    }
    if Closed(par) && Acyclic(par) {
      forall id | id in par ensures exists n: nat :: Rooted(par, id, n) {
        AcyclicWalkEnds(par, id, {});
      }
    }
  }

  lemma {:induction false} RootedIsOffCycles(par: Parents, id: string, n: nat, k: nat)
    requires "" !in par && id in par && k >= 1 && Rooted(par, id, n)
    ensures Up(par, id, k) != id
    decreases n
  {
    if Up(par, id, k) == id {
      UpShifts(par, id, k, 1);
      UpShifts(par, id, 1, k);
      assert Up(par, id, 1) == par[id] && Up(par, par[id], k) == par[id];
      if par[id] == "" {
        NothingAboveRoot(par, k - 1);
      } else {
        RootedIsOffCycles(par, par[id], n - 1, k);
      }
    }
  }

  /** Without cycles a walk never meets a visited id again, so it ends before the ids run out. */
  lemma {:induction false} AcyclicWalkEnds(par: Parents, id: string, visited: set<string>)
    requires Closed(par) && Acyclic(par) && (id == "" || id in par)
    requires visited <= par.Keys && forall v :: v in visited ==> ProperlyBelow(par, v, id)
    ensures Rooted(par, id, |par.Keys - visited|)
    decreases |par.Keys - visited|
  {
    if id != "" {
      assert id !in visited;
      StepVisited(par, id, visited);
      assert par.Keys - visited == (par.Keys - (visited + {id})) + {id};
      AcyclicWalkEnds(par, par[id], visited + {id});
    }
  }

  lemma StepVisited(par: Parents, id: string, visited: set<string>)
    requires id in par && forall v :: v in visited ==> ProperlyBelow(par, v, id)
    ensures forall v :: v in visited + {id} ==> ProperlyBelow(par, v, par[id])
  {
    forall v | v in visited + {id} ensures ProperlyBelow(par, v, par[id]) {
      assert Up(par, id, 1) == par[id];
      if v != id {
        var k: nat :| k >= 1 && Up(par, v, k) == id;
        UpShifts(par, v, k, 1);
        assert Up(par, v, k + 1) == par[id];
      }
    }
  }

  // ---------------------------------------------------------------------------------------------
  // Editing a forest

  /** A walk that never meets `x` is unchanged when `x` gets a parent. */
  lemma {:induction false} AvoidingWalk(par: Parents, x: string, p: string, id: string, n: nat)
    requires Rooted(par, id, n) && !Below(par, id, x)
    ensures Rooted(par[x := p], id, n)
    decreases n
  {
    assert Up(par, id, 0) != x;
    if id != "" {
      forall k: nat ensures Up(par, par[id], k) != x {
        assert Up(par, id, k + 1) != x;
      }
      AvoidingWalk(par, x, p, par[id], n - 1);
    }
  }

  lemma {:induction false} RebasedWalk(par: Parents, x: string, p: string, id: string, n: nat, m: nat)
    requires Rooted(par, id, n) && Rooted(par[x := p], p, m)
    ensures Rooted(par[x := p], id, n + m + 1)
    decreases n
  {
    if id == x {
      RootedLonger(par[x := p], p, m, n + m);
    } else if id != "" {
      RebasedWalk(par, x, p, par[id], n - 1, m);
    }
  }

  lemma {:induction false} RootedLonger(par: Parents, id: string, n: nat, m: nat)
    requires Rooted(par, id, n) && n <= m
    ensures Rooted(par, id, m)
    decreases n
  {
    if id != "" { RootedLonger(par, par[id], n - 1, m - 1); }
  }

  /**
   Giving `x`, old or new, the parent `p` keeps the forest exactly when `p` is not `x` or one of its
   descendants. So the cycle check refuses no harmless move and lets no harmful one through.
   */
  lemma ReparentIff(par: Parents, x: string, p: string)
    requires Forest(par) && x != "" && (p == "" || p in par)
    ensures Forest(par[x := p]) <==> !Below(par, p, x)
  {
    var par' := par[x := p];
    if !Below(par, p, x) {
      var m: nat :| Rooted(par, p, m);
      AvoidingWalk(par, x, p, p, m);
      forall id | id in par' ensures exists n: nat :: Rooted(par', id, n) {
        if id in par {
          var n: nat :| Rooted(par, id, n);
          RebasedWalk(par, x, p, id, n, m);
        } else {
          assert Rooted(par', x, m + 1);
        }
      }
    } else {
      var k := FirstMeeting(par, p, x);
      SameUntilMeeting(par, x, p, p, k);
      assert Up(par', x, k + 1) == x;
      assert ProperlyBelow(par', x, x);
      ForestIffAcyclic(par');
    }
  }

  lemma FirstMeeting(par: Parents, id: string, x: string) returns (k: nat)
    requires Below(par, id, x)
    ensures Up(par, id, k) == x && forall j :: 0 <= j < k ==> Up(par, id, j) != x
  {
    k :| Up(par, id, k) == x;
    var j := 0;
    while j < k
      invariant j <= k && Up(par, id, k) == x && forall i :: 0 <= i < j ==> Up(par, id, i) != x
      decreases k - j
    {
      if Up(par, id, j) == x { k := j; } else { j := j + 1; }
    }
  }

  lemma {:induction false} SameUntilMeeting(par: Parents, x: string, p: string, id: string, k: nat)
    requires forall j :: 0 <= j < k ==> Up(par, id, j) != x
    ensures Up(par[x := p], id, k) == Up(par, id, k)
    decreases k
  {
    if k > 0 {
      assert Up(par, id, 0) != x;
      var parent := if id in par then par[id] else "";
      forall j | 0 <= j < k - 1 ensures Up(par, parent, j) != x {
        assert Up(par, id, j + 1) != x;
      }
      SameUntilMeeting(par, x, p, parent, k - 1);
    }
  }

  // ---------------------------------------------------------------------------------------------
  // Validation

  const MAX_NAME: nat := 120
  const MAX_RAW_SOURCE_NAME: nat := 240

  /** The category a search through the whole list ends up with: the last match. */
  function Find(cs: seq<Category>, id: string): (r: Option<Category>)
    ensures r.Some? <==> id in ParentsOf(cs)
    ensures r.Some? ==> r.value in cs && r.value.id == id
  {
    if cs == [] then None
    else if cs[|cs| - 1].id == id then Some(cs[|cs| - 1])
    else Find(cs[..|cs| - 1], id)
  }

  /** The verdict on a category's fields, given the book's categories. `id` is empty for a new one. */
  ghost function Verdict(cs: seq<Category>, id: string, parentID: string, name: string,
                         direction: Direction, rawSourceName: string): Result<(), LedgerError>
  {
    if name == "" || |name| > MAX_NAME then Err(InvalidInput)
    else if direction.OtherDirection? then Err(InvalidInput)
    else if |rawSourceName| > MAX_RAW_SOURCE_NAME then Err(InvalidInput)
    else if parentID == "" then Ok(())
    else if parentID == id then Err(InvalidInput)
    else if Find(cs, parentID).None? then Err(NotFound)
    else if Find(cs, parentID).value.direction != direction then Err(InvalidInput)
    else if id != "" && Below(ParentsOf(cs), parentID, id) then Err(CategoryCycle)
    else Ok(())
  }

  /** The walk up from the new parent. It terminates because the categories form a forest. */
  method ValidateCategoryFields(cs: seq<Category>, id: string, parentID: string, name: string,
                                direction: Direction, rawSourceName: string) returns (r: Result<(), LedgerError>)
    requires Forest(ParentsOf(cs))
    ensures r == Verdict(cs, id, parentID, name, direction, rawSourceName)
  {
    if name == "" || |name| > MAX_NAME {
      return Err(InvalidInput);
    }
    if direction.OtherDirection? || |rawSourceName| > MAX_RAW_SOURCE_NAME {
      return Err(InvalidInput);
    }
    if parentID == "" {
      return Ok(());
    }
    if parentID == id {
      return Err(InvalidInput);
    }
    var parents: Parents := map[];
    var parent: Option<Category> := None;
    for i := 0 to |cs|
      invariant parents == ParentsOf(cs[..i]) && parent == Find(cs[..i], parentID)
    {
      assert cs[..i + 1][..i] == cs[..i];
      parents := parents[cs[i].id := cs[i].parentID];
      if cs[i].id == parentID {
        parent := Some(cs[i]);
      }
    }
    assert cs[..|cs|] == cs;
    if parent.None? {
      return Err(NotFound);
    }
    if parent.value.direction != direction {
      return Err(InvalidInput);
    }
    ghost var n: nat :| Rooted(parents, parentID, n);
    ghost var k: nat := 0;
    var ancestorID := parentID;
    while ancestorID != ""
      invariant Rooted(parents, ancestorID, n) && Up(parents, parentID, k) == ancestorID
      invariant forall j :: 0 <= j < k ==> Up(parents, parentID, j) != id
      decreases n
    {
      if ancestorID == id {
        return Err(CategoryCycle);
      }
      UpShifts(parents, parentID, k, 1);
      ancestorID := parents[ancestorID];
      n, k := n - 1, k + 1;
    }
    if id != "" {
      forall j: nat ensures Up(parents, parentID, j) != id {
        if j >= k {
          UpShifts(parents, parentID, k, j - k);
          NothingAboveRoot(parents, j - k);
        }
      }
    }
    return Ok(());
  }

  // ---------------------------------------------------------------------------------------------
  // The use cases

  /** One call. `Create` carries the UUID it draws. */
  datatype Request =
    | Create(actor: string, bookID: string, id: string, parentID: string, name: string,
             direction: Direction, sortOrder: int, rawSourceName: string)
    | Update(actor: string, bookID: string, id: string, newParentID: Option<string>, newName: Option<string>,
             newDirection: Option<Direction>, newSortOrder: Option<int>, newArchived: Option<bool>,
             newRawSourceName: Option<string>)

  function Manager(l: Ledger, actor: string, bookID: string): Result<(), LedgerError> {
    if MemberOf(l, bookID, actor).Err? then Err(AccessDenied)
    else if !Manages(MemberOf(l, bookID, actor).value) then Err(AccessDenied)
    else Ok(())
  }

  function Patched(c: Category, q: Request): Category
    requires q.Update?
  {
    c.(parentID := q.newParentID.Or(c.parentID), name := q.newName.Or(c.name),
       direction := q.newDirection.Or(c.direction), sortOrder := q.newSortOrder.Or(c.sortOrder),
       archived := q.newArchived.Or(c.archived), rawSourceName := q.newRawSourceName.Or(c.rawSourceName))
  }

  predicate HasFields(q: Request)
    requires q.Update?
  {
    || q.newParentID.Some? || q.newName.Some? || q.newDirection.Some?
    || q.newSortOrder.Some? || q.newArchived.Some? || q.newRawSourceName.Some?
  }

  /** The patched category an update is about, before it is validated. */
  function PatchOf(l: Ledger, q: Request): Result<Category, LedgerError>
    requires q.Update?
  {
    if q.actor == "" || q.bookID == "" || q.id == "" || !HasFields(q) then Err(InvalidInput)
    else
      var _ :- Manager(l, q.actor, q.bookID);
      match Find(CategoriesOf(l.categories, q.bookID), q.id)
      case None => Err(NotFound)
      case Some(c) => Ok(Patched(c, q))
  }

  /** The category list after a successful call, and the category it wrote. */
  ghost function Edited(l: Ledger, q: Request): Result<(seq<Category>, Category), LedgerError> {
    match q
    case Create(actor, bookID, id, parentID, name, direction, sortOrder, rawSourceName) =>
      if actor == "" || bookID == "" then Err(InvalidInput)
      else
        var _ :- Manager(l, actor, bookID);
        var _ :- Verdict(CategoriesOf(l.categories, bookID), "", parentID, name, direction, rawSourceName);
        var c := Category(id, bookID, parentID, name, direction, sortOrder, false, rawSourceName);
        if HasCategoryId(l.categories, id) then Err(Conflict) else Ok((l.categories + [c], c))
    case Update(_, bookID, id, _, _, _, _, _, _) =>
      var c :- PatchOf(l, q);
      var _ :- Verdict(CategoriesOf(l.categories, bookID), id, c.parentID, c.name, c.direction, c.rawSourceName);
      Ok((ReplaceCategory(l.categories, c), c))
  }

  /** The service: validates, then writes the store. */
  method CreateCategory(store: MemoryStore, q: Request) returns (r: Result<Category, LedgerError>)
    requires q.Create? && Forested(store.categories)
    modifies store
    ensures var edited := Edited(old(store.Contents()), q);
            && (edited.Ok? ==>
                  r == Ok(edited.value.1) && store.Contents() == old(store.Contents()).(categories := edited.value.0))
            && (edited.Err? ==> r == Err(edited.error) && store.Contents() == old(store.Contents()))
    ensures r.Ok? ==>
              && IsManager(old(store.Contents()), q.bookID, q.actor)
              && store.categories == old(store.categories) + [r.value]
              && r.value.id == q.id && r.value.bookID == q.bookID && r.value.parentID == q.parentID
              && r.value.name == q.name && r.value.direction == q.direction && r.value.sortOrder == q.sortOrder
              && !r.value.archived && r.value.rawSourceName == q.rawSourceName
  {
    if q.actor == "" || q.bookID == "" {
      return Err(InvalidInput);
    }
    var _ :- Manager(store.Contents(), q.actor, q.bookID);
    var _ :- ValidateCategoryFields(CategoriesOf(store.categories, q.bookID), "", q.parentID, q.name,
                                    q.direction, q.rawSourceName);
    var category := Category(q.id, q.bookID, q.parentID, q.name, q.direction, q.sortOrder, false, q.rawSourceName);
    var _ :- store.CreateCategory(category);
    return Ok(category);
  }

  method UpdateCategory(store: MemoryStore, q: Request) returns (r: Result<Category, LedgerError>)
    requires q.Update? && Forested(store.categories)
    modifies store
    ensures var edited := Edited(old(store.Contents()), q);
            && (edited.Ok? ==>
                  r == Ok(edited.value.1) && store.Contents() == old(store.Contents()).(categories := edited.value.0))
            && (edited.Err? ==> r == Err(edited.error) && store.Contents() == old(store.Contents()))
    ensures r.Ok? ==>
              && IsManager(old(store.Contents()), q.bookID, q.actor)
              && exists i :: 0 <= i < |old(store.categories)| && Replaces(old(store.categories), i, q, store.categories)
                             && store.categories[i] == r.value
  {
    if q.actor == "" || q.bookID == "" || q.id == "" || !HasFields(q) {
      return Err(InvalidInput);
    }
    var _ :- Manager(store.Contents(), q.actor, q.bookID);
    var categories := CategoriesOf(store.categories, q.bookID);
    var found := Find(categories, q.id);
    if found.None? {
      return Err(NotFound);
    }
    var patched := Patched(found.value, q);
    var _ :- ValidateCategoryFields(categories, q.id, patched.parentID, patched.name, patched.direction,
                                    patched.rawSourceName);
    FoundIsIndexed(store.categories, q.bookID, found.value);
    ReplacesFound(store.Contents(), q);
    var written := store.UpdateCategory(patched);
    return Ok(patched);
  }

  /** The category with the request's fields where it gives them, and as it was otherwise. */
  ghost predicate Applies(c: Category, q: Request, c': Category)
    requires q.Update?
  {
    && c'.id == c.id && c'.bookID == c.bookID
    && c'.parentID == (if q.newParentID.Some? then q.newParentID.value else c.parentID)
    && c'.name == (if q.newName.Some? then q.newName.value else c.name)
    && c'.direction == (if q.newDirection.Some? then q.newDirection.value else c.direction)
    && c'.sortOrder == (if q.newSortOrder.Some? then q.newSortOrder.value else c.sortOrder)
    && c'.archived == (if q.newArchived.Some? then q.newArchived.value else c.archived)
    && c'.rawSourceName == (if q.newRawSourceName.Some? then q.newRawSourceName.value else c.rawSourceName)
  }

  /** The requested category, at index i, has the request's fields; the rest of the list is as before. */
  ghost predicate Replaces(cs: seq<Category>, i: nat, q: Request, cs': seq<Category>)
    requires q.Update? && i < |cs|
  {
    && cs[i].id == q.id && cs[i].bookID == q.bookID
    && |cs'| == |cs| && cs' == cs[i := cs'[i]] && Applies(cs[i], q, cs'[i])
  }

  lemma ReplacesFound(l: Ledger, q: Request)
    requires Forested(l.categories) && q.Update? && Edited(l, q).Ok?
    ensures IsManager(l, q.bookID, q.actor)
    ensures var i, (cs', c) := CategoryIndex(l.categories, q.bookID, q.id), Edited(l, q).value;
            i < |l.categories| && Replaces(l.categories, i, q, cs') && cs'[i] == c
  {
    var c := Find(CategoriesOf(l.categories, q.bookID), q.id).value;
    FoundIsTheIndexed(l.categories, q.bookID, c);
    PatchedApplies(c, q);
  }

  lemma PatchedApplies(c: Category, q: Request)
    requires q.Update?
    ensures Applies(c, q, Patched(c, q))
  {}

  lemma FoundIsTheIndexed(cs: seq<Category>, bookID: string, c: Category)
    requires DistinctCategoryIds(cs) && c in CategoriesOf(cs, bookID)
    ensures CategoryIndex(cs, bookID, c.id) < |cs| && cs[CategoryIndex(cs, bookID, c.id)] == c
  {
    var i :| 0 <= i < |cs| && cs[i] == c;
  }

  lemma FoundIsIndexed(cs: seq<Category>, bookID: string, c: Category)
    requires c in CategoriesOf(cs, bookID)
    ensures CategoryIndex(cs, bookID, c.id) < |cs|
  {
    var i :| 0 <= i < |cs| && cs[i] == c;
  }

  // ---------------------------------------------------------------------------------------------
  // The invariant

  /** Ids are distinct, and each book's parent links stay inside the book and form a forest. */
  ghost predicate Forested(cs: seq<Category>) {
    DistinctCategoryIds(cs) && forall b :: Forest(ParentsOf(CategoriesOf(cs, b)))
  }

  lemma {:induction false} CategoriesOfConcat(cs: seq<Category>, ds: seq<Category>, b: string)
    ensures CategoriesOf(cs + ds, b) == CategoriesOf(cs, b) + CategoriesOf(ds, b)
  {
    if cs == [] {
      assert cs + ds == ds;
    } else {
      assert (cs + ds)[1..] == cs[1..] + ds;
      CategoriesOfConcat(cs[1..], ds, b);
    }
  }

  lemma {:induction false} ParentKeys(cs: seq<Category>, id: string)
    ensures id in ParentsOf(cs) <==> exists i :: 0 <= i < |cs| && cs[i].id == id
  {
    if cs != [] {
      ParentKeys(cs[..|cs| - 1], id);
    }
  }

  /** Appending a category with a fresh id and a listed parent adds one leaf to its book's forest. */
  lemma AppendKeepsForest(cs: seq<Category>, c: Category)
    requires Forested(cs) && c.id != "" && !HasCategoryId(cs, c.id)
    requires c.parentID == "" || c.parentID in ParentsOf(CategoriesOf(cs, c.bookID))
    ensures Forested(cs + [c])
  {
    forall b ensures Forest(ParentsOf(CategoriesOf(cs + [c], b))) {
      if b == c.bookID {
        LeafKeepsForest(cs, c);
      } else {
        OtherBookUnchanged(cs, c, b);
      }
    }
  }

  lemma LeafKeepsForest(cs: seq<Category>, c: Category)
    requires Forest(ParentsOf(CategoriesOf(cs, c.bookID))) && c.id != "" && !HasCategoryId(cs, c.id)
    requires c.parentID == "" || c.parentID in ParentsOf(CategoriesOf(cs, c.bookID))
    ensures Forest(ParentsOf(CategoriesOf(cs + [c], c.bookID)))
  {
    var mine := CategoriesOf(cs, c.bookID);
    CategoriesOfConcat(cs, [c], c.bookID);
    assert CategoriesOf([c], c.bookID) == [c];
    assert (mine + [c])[..|mine|] == mine;
    FreshLeaf(mine, cs, c);
    ReparentIff(ParentsOf(mine), c.id, c.parentID);
  }

  lemma OtherBookUnchanged(cs: seq<Category>, c: Category, b: string)
    requires b != c.bookID
    ensures CategoriesOf(cs + [c], b) == CategoriesOf(cs, b)
  {
    CategoriesOfConcat(cs, [c], b);
    assert CategoriesOf([c], b) == [];
  }

  /** A fresh id is nobody's ancestor. */
  lemma FreshLeaf(mine: seq<Category>, cs: seq<Category>, c: Category)
    requires mine == CategoriesOf(cs, c.bookID) && !HasCategoryId(cs, c.id) && c.id != ""
    requires Forest(ParentsOf(mine)) && (c.parentID == "" || c.parentID in ParentsOf(mine))
    ensures !Below(ParentsOf(mine), c.parentID, c.id)
  {
    var par := ParentsOf(mine);
    ParentKeys(mine, c.id);
    forall i | 0 <= i < |mine| ensures mine[i].id != c.id {
      assert mine[i] in cs;
    }
    forall k: nat ensures Up(par, c.parentID, k) != c.id {
      UpStaysListed(par, c.parentID, k);
    }
  }

  lemma {:induction false} UpStaysListed(par: Parents, id: string, k: nat)
    requires Forest(par) && (id == "" || id in par)
    ensures Up(par, id, k) == "" || Up(par, id, k) in par
    decreases k
  {
    ForestIffAcyclic(par);
    if k > 0 { UpStaysListed(par, if id in par then par[id] else "", k - 1); }
  }

  /** Replacing a category in place replaces it in its book's list and touches no other book. */
  lemma {:induction false} ReplaceInBook(cs: seq<Category>, c: Category, b: string)
    requires CategoryIndex(cs, c.bookID, c.id) < |cs|
    ensures CategoriesOf(ReplaceCategory(cs, c), b) ==
            if b == c.bookID then ReplaceCategory(CategoriesOf(cs, b), c) else CategoriesOf(cs, b)
  {
    var rest, mine := cs[1..], CategoriesOf(cs[1..], b);
    CategoriesCons(cs[0], rest, b);
    assert cs == [cs[0]] + rest;
    if cs[0].bookID == c.bookID && cs[0].id == c.id {
      ReplaceHead(cs[0], rest, c);
      CategoriesCons(c, rest, b);
      if b == c.bookID { ReplaceHead(cs[0], mine, c); }
    } else {
      ReplaceTail(cs[0], rest, c);
      CategoriesCons(cs[0], ReplaceCategory(rest, c), b);
      ReplaceInBook(rest, c, b);
      if b == c.bookID && cs[0].bookID == b { ReplaceTail(cs[0], mine, c); }
    }
  }

  lemma CategoriesCons(x: Category, rest: seq<Category>, b: string)
    ensures CategoriesOf([x] + rest, b) == if x.bookID == b then [x] + CategoriesOf(rest, b) else CategoriesOf(rest, b)
  {
    assert ([x] + rest)[1..] == rest;
    assert [] + CategoriesOf(rest, b) == CategoriesOf(rest, b);
  }

  lemma ReplaceHead(x: Category, rest: seq<Category>, c: Category)
    requires x.bookID == c.bookID && x.id == c.id
    ensures ReplaceCategory([x] + rest, c) == [c] + rest
  {}

  lemma ReplaceTail(x: Category, rest: seq<Category>, c: Category)
    requires x.bookID != c.bookID || x.id != c.id
    ensures ReplaceCategory([x] + rest, c) == [x] + ReplaceCategory(rest, c)
    ensures CategoryIndex([x] + rest, c.bookID, c.id) == 1 + CategoryIndex(rest, c.bookID, c.id)
  {
    assert ([x] + rest)[1..] == rest;
  }

  lemma {:induction false} ReplacedParents(cs: seq<Category>, c: Category)
    requires DistinctCategoryIds(cs) && forall i :: 0 <= i < |cs| ==> cs[i].bookID == c.bookID
    requires CategoryIndex(cs, c.bookID, c.id) < |cs|
    ensures ParentsOf(ReplaceCategory(cs, c)) == ParentsOf(cs)[c.id := c.parentID]
  {
    ParentsAfterUpdate(cs, CategoryIndex(cs, c.bookID, c.id), c);
  }

  /** Replacing the row at `i` by one with the same id changes that id's parent only. */
  lemma {:induction false} ParentsAfterUpdate(cs: seq<Category>, i: nat, c: Category)
    requires DistinctCategoryIds(cs) && i < |cs| && cs[i].id == c.id
    ensures ParentsOf(cs[i := c]) == ParentsOf(cs)[c.id := c.parentID]
  {
    var last := |cs| - 1;
    var init := cs[..last];
    if i == last {
      assert cs[i := c][..last] == init;
    } else {
      assert cs[i := c][..last] == init[i := c] && cs[i := c][last] == cs[last];
      ParentsAfterUpdate(init, i, c);
      assert cs[last].id != c.id;
    }
  }

  lemma CreateKeepsForest(l: Ledger, q: Request)
    requires Forested(l.categories) && q.Create? && q.id != "" && Edited(l, q).Ok?
    ensures Forested(Edited(l, q).value.0)
  {
    AppendKeepsForest(l.categories, Edited(l, q).value.1);
  }

  lemma ReplaceKeepsForest(cs: seq<Category>, c: Category)
    requires Forested(cs) && c.id != "" && CategoryIndex(cs, c.bookID, c.id) < |cs|
    requires var par := ParentsOf(CategoriesOf(cs, c.bookID));
             (c.parentID == "" || c.parentID in par) && !Below(par, c.parentID, c.id)
    ensures Forested(ReplaceCategory(cs, c))
  {
    MineKeepsForest(cs, c);
    ReplaceKeepsIds(cs, c);
    forall b ensures Forest(ParentsOf(CategoriesOf(ReplaceCategory(cs, c), b))) {
      ReplaceInBook(cs, c, b);
    }
  }

  lemma ReplaceKeepsIds(cs: seq<Category>, c: Category)
    requires DistinctCategoryIds(cs)
    ensures DistinctCategoryIds(ReplaceCategory(cs, c))
  {
    var cs' := ReplaceCategory(cs, c);
    assert |cs'| == |cs| && forall i :: 0 <= i < |cs| ==> cs'[i].id == cs[i].id;
  }

  lemma MineKeepsForest(cs: seq<Category>, c: Category)
    requires DistinctCategoryIds(cs) && c.id != "" && CategoryIndex(cs, c.bookID, c.id) < |cs|
    requires var par := ParentsOf(CategoriesOf(cs, c.bookID));
             Forest(par) && (c.parentID == "" || c.parentID in par) && !Below(par, c.parentID, c.id)
    ensures Forest(ParentsOf(ReplaceCategory(CategoriesOf(cs, c.bookID), c)))
  {
    MineReparented(cs, c);
    ReparentIff(ParentsOf(CategoriesOf(cs, c.bookID)), c.id, c.parentID);
  }

  lemma MineReparented(cs: seq<Category>, c: Category)
    requires DistinctCategoryIds(cs) && CategoryIndex(cs, c.bookID, c.id) < |cs|
    ensures var mine := CategoriesOf(cs, c.bookID);
            ParentsOf(ReplaceCategory(mine, c)) == ParentsOf(mine)[c.id := c.parentID]
  {
    var mine, current := CategoriesOf(cs, c.bookID), cs[CategoryIndex(cs, c.bookID, c.id)];
    MineDistinct(cs, c.bookID);
    OwnBook(cs, c.bookID);
    FoundIsIndexed(mine, c.bookID, current);
    ReplacedParents(mine, c);
  }

  lemma UpdateKeepsForest(l: Ledger, q: Request)
    requires Forested(l.categories) && q.Update? && Edited(l, q).Ok?
    ensures Forested(Edited(l, q).value.0)
  {
    var cs, c := l.categories, PatchOf(l, q).value;
    var mine := CategoriesOf(cs, q.bookID);
    FoundIsIndexed(cs, q.bookID, Find(mine, q.id).value);
    if c.parentID == "" {
      forall k: nat ensures Up(ParentsOf(mine), c.parentID, k) != c.id {
        NothingAboveRoot(ParentsOf(mine), k);
      }
    }
    ReplaceKeepsForest(cs, c);
  }

  lemma {:induction false} OwnBook(cs: seq<Category>, b: string)
    ensures CategoriesOf(CategoriesOf(cs, b), b) == CategoriesOf(cs, b)
  {
    if cs != [] {
      OwnBook(cs[1..], b);
      CategoriesCons(cs[0], CategoriesOf(cs[1..], b), b);
      CategoriesCons(cs[0], cs[1..], b);
      assert cs == [cs[0]] + cs[1..];
    }
  }

  lemma {:induction false} MineDistinct(cs: seq<Category>, b: string)
    requires DistinctCategoryIds(cs)
    ensures DistinctCategoryIds(CategoriesOf(cs, b))
  {
    if cs != [] {
      MineDistinct(cs[1..], b);
      var rest := CategoriesOf(cs[1..], b);
      forall i | 0 <= i < |rest| ensures rest[i].id != cs[0].id {
        assert rest[i] in cs[1..];
      }
    }
  }

  /** Each category of the list has a fresh id and comes after its parent. */
  ghost predicate ParentsFirst(added: seq<Category>, bookID: string) {
    forall i :: 0 <= i < |added| ==>
      && added[i].bookID == bookID && added[i].id != ""
      && (added[i].parentID == "" || exists p :: 0 <= p < i && added[p].id == added[i].parentID)
  }

  lemma DefaultsComeParentsFirst(bookID: string, specs: seq<CategorySpec>, idFor: string -> string)
    requires WellFormed(specs) && forall key :: idFor(key) != ""
    ensures ParentsFirst(DefaultBookCategories(bookID, specs, idFor), bookID)
  {
    var added := DefaultBookCategories(bookID, specs, idFor);
    forall i | 0 <= i < |added|
      ensures added[i].parentID == "" || exists p :: 0 <= p < i && added[p].id == added[i].parentID
    {
      if specs[i].parentKey != "" {
        var p :| 0 <= p < i && specs[p].key == specs[i].parentKey;
        assert added[p].id == added[i].parentID;
      }
    }
  }

  /** A list that comes parents first can be appended to a forest one leaf at a time. */
  lemma {:induction false} AppendAllKeepsForest(cs: seq<Category>, bookID: string, added: seq<Category>)
    requires Forested(cs) && ParentsFirst(added, bookID) && DistinctCategoryIds(added)
    requires forall i :: 0 <= i < |added| ==> !HasCategoryId(cs, added[i].id)
    ensures Forested(cs + added)
  {
    if added == [] {
      assert cs + added == cs;
    } else {
      var init, c := added[..|added| - 1], added[|added| - 1];
      AppendAllKeepsForest(cs, bookID, init);
      assert cs + added == (cs + init) + [c];
      NextIsLeaf(cs, bookID, added);
      AppendKeepsForest(cs + init, c);
    }
  }

  lemma NextIsLeaf(cs: seq<Category>, bookID: string, added: seq<Category>)
    requires added != [] && ParentsFirst(added, bookID) && DistinctCategoryIds(added)
    requires forall i :: 0 <= i < |added| ==> !HasCategoryId(cs, added[i].id)
    ensures var have, c := cs + added[..|added| - 1], added[|added| - 1];
            && c.id != "" && c.bookID == bookID && !HasCategoryId(have, c.id)
            && (c.parentID == "" || c.parentID in ParentsOf(CategoriesOf(have, bookID)))
  {
    var init, c := added[..|added| - 1], added[|added| - 1];
    assert !HasCategoryId(cs + init, c.id) by {
      assert !HasCategoryId(cs, c.id);
    }
    if c.parentID != "" {
      var p :| 0 <= p < |init| && added[p].id == c.parentID;
      ParentIsListed(cs, bookID, init, p);
    }
  }

  lemma ParentIsListed(cs: seq<Category>, bookID: string, init: seq<Category>, p: nat)
    requires p < |init| && init[p].bookID == bookID
    ensures init[p].id in ParentsOf(CategoriesOf(cs + init, bookID))
  {
    assert (cs + init)[|cs| + p] == init[p];
    ListedInBook(cs + init, bookID, |cs| + p);
  }

  lemma ListedInBook(cs: seq<Category>, bookID: string, i: nat)
    requires i < |cs| && cs[i].bookID == bookID
    ensures cs[i].id in ParentsOf(CategoriesOf(cs, bookID))
  {
    var mine := CategoriesOf(cs, bookID);
    assert cs[i] in mine;
    var j :| 0 <= j < |mine| && mine[j] == cs[i];
    ParentKeys(mine, cs[i].id);
  }

  lemma CreateBookKeepsForest(l: Ledger, q: Books.Request, specs: seq<CategorySpec>)
    requires Forested(l.categories) && WellFormed(specs) && q.NewBook? && forall key :: q.idFor(key) != ""
    ensures Forested(Books.Last(l, Books.Create(l, q, specs).writes).categories)
  {
    var o := Books.Create(l, q, specs);
    if o.writes != [] {
      DefaultsComeParentsFirst(q.bookID, specs, q.idFor);
      AppendAllKeepsForest(l.categories, q.bookID, DefaultBookCategories(q.bookID, specs, q.idFor));
    }
  }

  // ---------------------------------------------------------------------------------------------
  // Runs

  datatype Call = OnCategory(edit: Request) | OnBook(request: Books.Request)

  /** The ids a call draws are never empty. */
  ghost predicate DrawsIds(call: Call) {
    match call
    case OnCategory(edit) => edit.Create? ==> edit.id != ""
    case OnBook(q) => q.NewBook? ==> forall key :: q.idFor(key) != ""
  }

  /** The ledger after one call of either service. */
  ghost function Do(l: Ledger, call: Call, specs: seq<CategorySpec>): (l': Ledger)
    requires Books.Owned(l)
    ensures Books.Owned(l')
  {
    match call
    case OnCategory(edit) =>
      if Edited(l, edit).Ok? then l.(categories := Edited(l, edit).value.0) else l
    case OnBook(q) =>
      Books.CallKeepsOwners(l, q, specs);
      Books.Last(l, Books.Writes(l, q, specs))
  }

  ghost function After(l: Ledger, run: seq<Call>, specs: seq<CategorySpec>): (l': Ledger)
    requires Books.Owned(l)
    ensures Books.Owned(l')
  {
    if run == [] then l else Do(After(l, run[..|run| - 1], specs), run[|run| - 1], specs)
  }

  lemma MemberCallsKeepCategories(l: Ledger, q: Books.Request, specs: seq<CategorySpec>)
    requires Books.Owned(l) && !q.NewBook?
    ensures Books.Last(l, Books.Writes(l, q, specs)).categories == l.categories
  {}

  lemma CallKeepsForest(l: Ledger, call: Call, specs: seq<CategorySpec>)
    requires Books.Owned(l) && Forested(l.categories) && WellFormed(specs) && DrawsIds(call)
    ensures Forested(Do(l, call, specs).categories)
  {
    match call
    case OnCategory(edit) =>
      if Edited(l, edit).Ok? {
        if edit.Create? { CreateKeepsForest(l, edit); } else { UpdateKeepsForest(l, edit); }
      }
    case OnBook(q) =>
      if q.NewBook? {
        CreateBookKeepsForest(l, q, specs);
      } else {
        MemberCallsKeepCategories(l, q, specs);
      }
  }

  /**
   In every state a run reaches, each book's categories form a forest: so the ancestor walk of the
   next call terminates, and refuses exactly the moves below the category itself.
   */
  lemma {:induction false} RunKeepsForest(l: Ledger, run: seq<Call>, specs: seq<CategorySpec>)
    requires Books.Owned(l) && Forested(l.categories) && WellFormed(specs)
    requires forall i :: 0 <= i < |run| ==> DrawsIds(run[i])
    ensures Forested(After(l, run, specs).categories)
  {
    if run != [] {
      RunKeepsForest(l, run[..|run| - 1], specs);
      CallKeepsForest(After(l, run[..|run| - 1], specs), run[|run| - 1], specs);
    }
  }

  const EMPTY: Ledger := Ledger(map[], map[], [], [], [], [])

  /** So with the built-in default categories every ledger that calls can build from nothing is a forest. */
  lemma ReachableForests(run: seq<Call>, specs: seq<CategorySpec>)
    requires specs == DefaultCategorySpecs() && forall i :: 0 <= i < |run| ==> DrawsIds(run[i])
    ensures Books.Owned(EMPTY) && Forested(After(EMPTY, run, specs).categories)
  {
    DefaultsAreWellFormed();
    RunFromNothing(run, specs);
  }

  lemma RunFromNothing(run: seq<Call>, specs: seq<CategorySpec>)
    requires WellFormed(specs) && forall i :: 0 <= i < |run| ==> DrawsIds(run[i])
    ensures Books.Owned(EMPTY) && Forested(After(EMPTY, run, specs).categories)
  {
    RunKeepsForest(EMPTY, run, specs);
  }

  /** All but the parent links: texts are in range, and the parent is another category of the book and direction. */
  ghost predicate FieldsAreValid(l: Ledger, c: Category) {
    && 0 < |c.name| <= 120 && |c.rawSourceName| <= 240 && (c.direction == Income || c.direction == Expense)
    && exists p :: p in l.categories && p.bookID == c.bookID && p.id == c.parentID && p.direction == c.direction
  }

  lemma ParentIsFound(l: Ledger, c: Category)
    requires Forested(l.categories) && FieldsAreValid(l, c)
    ensures var found := Find(CategoriesOf(l.categories, c.bookID), c.parentID);
            found.Some? && found.value.direction == c.direction
  {
    var cs := CategoriesOf(l.categories, c.bookID);
    var p :| p in l.categories && p.bookID == c.bookID && p.id == c.parentID && p.direction == c.direction;
    ParentKeys(cs, p.id);
    assert p in cs;
    var found := Find(cs, p.id).value;
    FoundIsTheIndexed(l.categories, c.bookID, found);
    FoundIsTheIndexed(l.categories, c.bookID, p);
  }

  /** The actor manages the book, and the request names a category and some field of it. */
  ghost predicate Permitted(l: Ledger, q: Request)
    requires q.Update?
  {
    && q.actor != "" && q.bookID != "" && q.id != "" && IsManager(l, q.bookID, q.actor)
    && !(q.newParentID == None && q.newName == None && q.newDirection == None && q.newSortOrder == None
         && q.newArchived == None && q.newRawSourceName == None)
  }

  /** `c` is the stored category the request is about, and `c'` the same as requested. */
  ghost predicate Requested(l: Ledger, q: Request, c: Category, c': Category)
    requires q.Update?
  {
    c in l.categories && c.id == q.id && c.bookID == q.bookID && Applies(c, q, c')
  }

  /** The category has valid fields, and it is a root or its parent keeps the forest. */
  ghost predicate Fits(l: Ledger, c: Category) {
    if c.parentID == "" then
      0 < |c.name| <= 120 && |c.rawSourceName| <= 240 && (c.direction == Income || c.direction == Expense)
    else FieldsAreValid(l, c) && Forest(ParentsOf(CategoriesOf(l.categories, c.bookID))[c.id := c.parentID])
  }

  /** What validation answers about a category, given those of its book. */
  ghost predicate Passes(l: Ledger, c: Category) {
    Verdict(CategoriesOf(l.categories, c.bookID), c.id, c.parentID, c.name, c.direction, c.rawSourceName).Ok?
  }

  lemma PassesIff(l: Ledger, c: Category)
    requires Forested(l.categories) && c.id in ParentsOf(CategoriesOf(l.categories, c.bookID)) && c.id != ""
    ensures Passes(l, c) <==> Fits(l, c)
  {
    if c.parentID == "" {
      RootPassesIff(l, c);
    } else if FieldsAreValid(l, c) {
      ChildPassesIff(l, c);
    } else {
      PassingNeedsFields(l, c);
    }
  }

  lemma RootPassesIff(l: Ledger, c: Category)
    requires c.parentID == ""
    ensures Passes(l, c) <==> Fits(l, c)
  {}

  lemma ChildPassesIff(l: Ledger, c: Category)
    requires Forested(l.categories) && c.id in ParentsOf(CategoriesOf(l.categories, c.bookID)) && c.id != ""
    requires c.parentID != "" && FieldsAreValid(l, c)
    ensures Passes(l, c) <==> Fits(l, c)
  {
    var par := ParentsOf(CategoriesOf(l.categories, c.bookID));
    ParentIsFound(l, c);
    ReparentIff(par, c.id, c.parentID);
    VerdictIff(CategoriesOf(l.categories, c.bookID), c);
  }

  lemma VerdictIff(cs: seq<Category>, c: Category)
    requires c.id != "" && c.parentID != "" && 0 < |c.name| <= 120 && |c.rawSourceName| <= 240
    requires (c.direction == Income || c.direction == Expense)
    requires Find(cs, c.parentID).Some? && Find(cs, c.parentID).value.direction == c.direction
    ensures Verdict(cs, c.id, c.parentID, c.name, c.direction, c.rawSourceName).Ok? <==>
            !Below(ParentsOf(cs), c.parentID, c.id)
  {
    assert Up(ParentsOf(cs), c.id, 0) == c.id;
  }

  lemma PassingNeedsFields(l: Ledger, c: Category)
    requires c.parentID != "" && !FieldsAreValid(l, c)
    ensures Passes(l, c) <==> Fits(l, c)
  {
    var found := Find(CategoriesOf(l.categories, c.bookID), c.parentID);
    if found.Some? {
      assert found.value in l.categories && found.value.bookID == c.bookID && found.value.id == c.parentID;
    }
  }

  /** Every request has at most one meaning. */
  lemma RequestedIsPatched(l: Ledger, q: Request, c: Category, c': Category)
    requires Forested(l.categories) && q.Update? && Requested(l, q, c, c')
    ensures Find(CategoriesOf(l.categories, q.bookID), q.id) == Some(c) && c' == Patched(c, q)
  {
    var cs := CategoriesOf(l.categories, q.bookID);
    assert c in cs;
    ParentKeys(cs, q.id);
    FoundIsTheIndexed(l.categories, q.bookID, Find(cs, q.id).value);
    FoundIsTheIndexed(l.categories, q.bookID, c);
  }

  lemma PatchedWhenPermitted(l: Ledger, q: Request, c: Category)
    requires q.Update? && Find(CategoriesOf(l.categories, q.bookID), q.id) == Some(c)
    ensures if Permitted(l, q) then PatchOf(l, q) == Ok(Patched(c, q)) else PatchOf(l, q).Err?
  {
    ManagerIff(l, q.actor, q.bookID);
    if HasFields(q) && Manager(l, q.actor, q.bookID).Ok? {
      assert Permitted(l, q) <==> q.actor != "" && q.bookID != "" && q.id != "";
    } else {
      assert !Permitted(l, q);
    }
  }

  lemma ManagerIff(l: Ledger, actor: string, bookID: string)
    ensures Manager(l, actor, bookID).Ok? <==> IsManager(l, bookID, actor)
  {}

  lemma EditedPasses(l: Ledger, q: Request)
    requires q.Update?
    ensures PatchOf(l, q).Ok? ==> PatchOf(l, q).value.id == q.id && PatchOf(l, q).value.bookID == q.bookID
    ensures Edited(l, q).Ok? <==> PatchOf(l, q).Ok? && Passes(l, PatchOf(l, q).value)
  {}

  lemma UpdateOfFoundIff(l: Ledger, q: Request, c: Category)
    requires Forested(l.categories) && q.Update? && Find(CategoriesOf(l.categories, q.bookID), q.id) == Some(c)
    ensures Edited(l, q).Ok? <==> Permitted(l, q) && Fits(l, Patched(c, q))
    ensures Requested(l, q, c, Patched(c, q))
  {
    var c' := Patched(c, q);
    PatchedApplies(c, q);
    EditedPasses(l, q);
    PatchedWhenPermitted(l, q, c);
    assert c'.id == q.id && c'.bookID == q.bookID;
    if Permitted(l, q) { PassesIff(l, c'); }
  }

  /** Exactly when an update succeeds, in terms of the stored categories and the request. */
  lemma UpdateSucceedsIff(l: Ledger, q: Request)
    requires Forested(l.categories) && q.Update?
    ensures Edited(l, q).Ok? <==> Permitted(l, q) && exists c, c' :: Requested(l, q, c, c') && Fits(l, c')
  {
    var found := Find(CategoriesOf(l.categories, q.bookID), q.id);
    if found.Some? { UpdateOfFoundIff(l, q, found.value); }
    forall c, c' | Requested(l, q, c, c') ensures found == Some(c) && c' == Patched(c, q) {
      RequestedIsPatched(l, q, c, c');
    }
  }

  /**
   Of an update by a manager whose other fields are valid, the service refuses the requested parent exactly
   when making it the category's parent would break the book's forest. `c'` is the category as requested.
   */
  lemma UpdateRefusesExactlyCycles(l: Ledger, q: Request, c: Category, c': Category)
    requires Forested(l.categories) && q.Update? && q.actor != "" && q.bookID != "" && q.id != ""
    requires IsManager(l, q.bookID, q.actor) && q.newParentID.Some?
    requires c in l.categories && c.id == q.id && c.bookID == q.bookID && Applies(c, q, c')
    requires FieldsAreValid(l, c')
    ensures Edited(l, q).Ok? <==>
            Forest(ParentsOf(CategoriesOf(l.categories, q.bookID))[q.id := q.newParentID.value])
  {
    RequestedIsPatched(l, q, c, c');
    UpdateOfFoundIff(l, q, c);
    ParentIsFound(l, c');
  }
}
