/** The category tree every new book starts with, built from a table of keyed specifications. */
module Seed {
  import opened LedgerStore
  import opened Text

  /** One table row. `parentKey` is empty for a root. */
  datatype CategorySpec = CategorySpec(key: string, parentKey: string, name: string, direction: Direction, sortOrder: int)

  /** What a table needs: keys are distinct and not empty, and a parent's row comes before its children's. */
  ghost predicate WellFormed(specs: seq<CategorySpec>) {
    forall i :: 0 <= i < |specs| ==>
      && specs[i].key != ""
      && (specs[i].parentKey == "" || exists p :: 0 <= p < i && specs[p].key == specs[i].parentKey)
      && (forall j :: 0 <= j < i ==> specs[j].key != specs[i].key)
  }

  /** The id drawn for a key; the empty key reads as the missing parent. */
  function IdOf(idFor: string -> string, key: string): string {
    if key == "" then "" else idFor(key)
  }

  /** `idFor` draws one fresh non-empty id per key, which parents and children then share. */
  function DefaultBookCategories(bookID: string, specs: seq<CategorySpec>, idFor: string -> string): seq<Category> {
    seq(|specs|, i requires 0 <= i < |specs| =>
      Category(idFor(specs[i].key), bookID, IdOf(idFor, specs[i].parentKey), specs[i].name,
               specs[i].direction, specs[i].sortOrder, false, ""))
  }

  /** The category of one row: its fields are the row's, its parent is the category of the parent's row. */
  ghost predicate IsRow(cs: seq<Category>, i: nat, bookID: string, specs: seq<CategorySpec>)
    requires i < |specs| == |cs|
  {
    && cs[i].bookID == bookID && cs[i].name == specs[i].name && cs[i].direction == specs[i].direction
    && cs[i].sortOrder == specs[i].sortOrder && !cs[i].archived && cs[i].rawSourceName == ""
    && (specs[i].parentKey == "" ==> cs[i].parentID == "")
    && (forall p :: 0 <= p < |specs| && specs[p].key == specs[i].parentKey ==> cs[i].parentID == cs[p].id)
  }

  /** A new book's categories are the rows of the table, under ids that differ if the drawn ones do. */
  lemma DefaultCategoriesAreRows(bookID: string, specs: seq<CategorySpec>, idFor: string -> string)
    requires WellFormed(specs)
    ensures var cs := DefaultBookCategories(bookID, specs, idFor);
            && |cs| == |specs| && (forall i :: 0 <= i < |specs| ==> IsRow(cs, i, bookID, specs))
            && ((forall k, k' :: idFor(k) == idFor(k') ==> k == k') ==> DistinctCategoryIds(cs))
  {
    var cs := DefaultBookCategories(bookID, specs, idFor);
    forall i | 0 <= i < |specs| ensures IsRow(cs, i, bookID, specs) {
      assert cs[i].parentID == IdOf(idFor, specs[i].parentKey);
      forall p | 0 <= p < |specs| && specs[p].key == specs[i].parentKey ensures cs[i].parentID == cs[p].id {
        assert specs[p].key != "" && cs[p].id == idFor(specs[p].key);
      }
    }
  }

  // ---------------------------------------------------------------------------------------------
  // The built-in table

  /** A root, `side-topic`, and its children, `side-topic-suffix`, sorted in steps of ten after it. */
  datatype Group = Group(side: string, topic: string, name: string, sortOrder: int, children: seq<(string, string)>)

  const EXPENSE_FOOD := Group("expense", "food", "Food & Dining", 100, [
    ("breakfast", "Breakfast"), ("lunch", "Lunch"), ("dinner", "Dinner"), ("coffee", "Coffee & Drinks"),
    ("groceries", "Groceries"), ("snacks", "Snacks"), ("delivery", "Delivery")])
  const EXPENSE_TRANSPORT := Group("expense", "transport", "Transportation", 200, [
    ("transit", "Public Transit"), ("taxi", "Taxi & Ride Share"), ("fuel", "Fuel"), ("parking", "Parking"),
    ("maintenance", "Vehicle Maintenance"), ("tolls", "Tolls")])
  const EXPENSE_SHOPPING := Group("expense", "shopping", "Shopping", 300, [
    ("clothing", "Clothing & Shoes"), ("home", "Home Goods"), ("electronics", "Electronics"),
    ("gifts", "Gifts"), ("personal", "Personal Care"), ("kids", "Baby & Kids")])
  const EXPENSE_HOME := Group("expense", "home", "Housing & Utilities", 400, [
    ("rent", "Rent or Mortgage"), ("utilities", "Utilities"), ("internet", "Internet"), ("phone", "Phone"),
    ("repairs", "Repairs"), ("property", "Property Fees")])
  const EXPENSE_HEALTH := Group("expense", "health", "Health", 500, [
    ("medical", "Medical"), ("pharmacy", "Pharmacy"), ("fitness", "Fitness"), ("insurance", "Insurance")])
  const EXPENSE_LIFE := Group("expense", "life", "Life & Entertainment", 600, [
    ("movies", "Movies & Shows"), ("games", "Games"), ("travel", "Travel"), ("hobbies", "Hobbies"),
    ("subscriptions", "Subscriptions")])
  const EXPENSE_WORK := Group("expense", "work", "Work & Study", 700, [
    ("office", "Office Supplies"), ("books", "Books"), ("training", "Training"), ("travel", "Business Travel")])
  const EXPENSE_FINANCE := Group("expense", "finance", "Finance & Giving", 800, [
    ("fees", "Bank Fees"), ("interest", "Interest Paid"), ("taxes", "Taxes"), ("charity", "Charity")])
  const INCOME_WORK := Group("income", "work", "Work Income", 1000, [
    ("salary", "Salary"), ("bonus", "Bonus"), ("freelance", "Freelance"), ("reimbursement", "Reimbursement"),
    ("benefits", "Benefits")])
  const INCOME_INVESTMENT := Group("income", "investment", "Investment Income", 1100, [
    ("interest", "Interest"), ("dividends", "Dividends"), ("gains", "Capital Gains")])
  const INCOME_OTHER := Group("income", "other", "Other Income", 1200, [
    ("gifts", "Gifts Received"), ("refunds", "Refunds"), ("cashback", "Cashback"), ("misc", "Other Income")])

  const GROUPS: seq<Group> := [
    EXPENSE_FOOD, EXPENSE_TRANSPORT, EXPENSE_SHOPPING, EXPENSE_HOME,
    EXPENSE_HEALTH, EXPENSE_LIFE, EXPENSE_WORK, EXPENSE_FINANCE,
    INCOME_WORK, INCOME_INVESTMENT, INCOME_OTHER
  ]

  function RootKey(g: Group): string { Join([g.side, g.topic], '-') }

  function ChildKey(g: Group, suffix: string): string { Join([g.side, g.topic, suffix], '-') }

  function DirectionOf(g: Group): Direction {
    if g.side == "expense" then Expense else Income
  }

  function Rows(g: Group): seq<CategorySpec> {
    [CategorySpec(RootKey(g), "", g.name, DirectionOf(g), g.sortOrder)]
    + seq(|g.children|, i requires 0 <= i < |g.children| =>
        CategorySpec(ChildKey(g, g.children[i].0), RootKey(g), g.children[i].1, DirectionOf(g),
            g.sortOrder + 10 * (i + 1)))
  }

  function Table(groups: seq<Group>): seq<CategorySpec> {
    if groups == [] then [] else Table(groups[..|groups| - 1]) + Rows(groups[|groups| - 1])
  }

  /** `defaultCategorySpecs`. */
  function DefaultCategorySpecs(): seq<CategorySpec> { Table(GROUPS) }

  /** Key parts hold no dash, and a group's suffixes differ. */
  predicate Tidy(g: Group) {
    '-' !in g.side && '-' !in g.topic && NoDashes(g.children) && SuffixesDiffer(g.children)
  }

  predicate NoDashes(children: seq<(string, string)>) {
    forall i :: 0 <= i < |children| ==> '-' !in children[i].0
  }

  predicate SuffixesDiffer(children: seq<(string, string)>) {
    forall i, j :: 0 <= i < j < |children| ==> children[i].0 != children[j].0
  }

  predicate Apart(g: Group, h: Group) { g.side != h.side || g.topic != h.topic }

  /** A key of the group starts with the group's two parts. */
  lemma KeyParts(g: Group, i: nat)
    requires Tidy(g) && i < |Rows(g)|
    ensures Split(Rows(g)[i].key, '-') ==
              if i == 0 then [g.side, g.topic] else [g.side, g.topic, g.children[i - 1].0]
  {
    SplitUndoesJoin(if i == 0 then [g.side, g.topic] else [g.side, g.topic, g.children[i - 1].0], '-');
  }

  lemma RowsAreWellFormed(g: Group)
    requires Tidy(g)
    ensures WellFormed(Rows(g))
  {
    var rows := Rows(g);
    forall i | 0 <= i < |rows|
      ensures rows[i].key != "" && (rows[i].parentKey == "" || exists p :: 0 <= p < i && rows[p].key == rows[i].parentKey)
      ensures forall j :: 0 <= j < i ==> rows[j].key != rows[i].key
    {
      KeyParts(g, i);
      if i > 0 { assert rows[0].key == rows[i].parentKey; }
      forall j | 0 <= j < i ensures rows[j].key != rows[i].key { KeyParts(g, j); }
    }
  }

  /** Two tables without a common key can be put one after the other. */
  lemma AppendedIsWellFormed(a: seq<CategorySpec>, b: seq<CategorySpec>)
    requires WellFormed(a) && WellFormed(b)
    requires forall i, j :: 0 <= i < |a| && 0 <= j < |b| ==> a[i].key != b[j].key
    ensures WellFormed(a + b)
  {
    var c := a + b;
    forall i | 0 <= i < |c| && c[i].parentKey != "" ensures exists p :: 0 <= p < i && c[p].key == c[i].parentKey {
      if i < |a| {
        var p :| 0 <= p < i && a[p].key == a[i].parentKey;
        assert c[p] == a[p];
      } else {
        var p :| 0 <= p < i - |a| && b[p].key == b[i - |a|].parentKey;
        assert c[|a| + p] == b[p];
      }
    }
  }

  /** Every row of the table belongs to one of its groups. */
  lemma {:induction false} TableRows(groups: seq<Group>, i: nat) returns (g: nat, k: nat)
    requires i < |Table(groups)|
    ensures g < |groups| && k < |Rows(groups[g])| && Table(groups)[i] == Rows(groups[g])[k]
  {
    var init, last := groups[..|groups| - 1], groups[|groups| - 1];
    if i < |Table(init)| {
      g, k := TableRows(init, i);
    } else {
      g, k := |groups| - 1, i - |Table(init)|;
    }
  }

  lemma {:induction false} TableIsWellFormed(groups: seq<Group>)
    requires forall i :: 0 <= i < |groups| ==> Tidy(groups[i])
    requires forall i, j :: 0 <= i < j < |groups| ==> Apart(groups[i], groups[j])
    ensures WellFormed(Table(groups))
  {
    if groups != [] {
      var init, last := groups[..|groups| - 1], groups[|groups| - 1];
      TableIsWellFormed(init);
      RowsAreWellFormed(last);
      forall i, j | 0 <= i < |Table(init)| && 0 <= j < |Rows(last)| ensures Table(init)[i].key != Rows(last)[j].key {
        var g, k := TableRows(init, i);
        KeyParts(init[g], k);
        KeyParts(last, j);
      }
      AppendedIsWellFormed(Table(init), Rows(last));
    }
  }

  lemma ExpenseFoodSuffixesDiffer()
    ensures SuffixesDiffer(EXPENSE_FOOD.children)
  {}

  lemma ExpenseFoodIsTidy()
    ensures Tidy(EXPENSE_FOOD)
  {
    ExpenseFoodSuffixesDiffer();
  }

  lemma ExpenseTransportSuffixesDiffer()
    ensures SuffixesDiffer(EXPENSE_TRANSPORT.children)
  {}

  lemma ExpenseTransportIsTidy()
    ensures Tidy(EXPENSE_TRANSPORT)
  {
    ExpenseTransportSuffixesDiffer();
  }

  lemma ExpenseShoppingSuffixesDiffer()
    ensures SuffixesDiffer(EXPENSE_SHOPPING.children)
  {}

  lemma ExpenseShoppingIsTidy()
    ensures Tidy(EXPENSE_SHOPPING)
  {
    ExpenseShoppingSuffixesDiffer();
  }

  lemma ExpenseHomeSuffixesDiffer()
    ensures SuffixesDiffer(EXPENSE_HOME.children)
  {}

  lemma ExpenseHomeIsTidy()
    ensures Tidy(EXPENSE_HOME)
  {
    ExpenseHomeSuffixesDiffer();
  }

  lemma ExpenseHealthIsTidy()
    ensures Tidy(EXPENSE_HEALTH)
  {}

  lemma ExpenseLifeSuffixesDiffer()
    ensures SuffixesDiffer(EXPENSE_LIFE.children)
  {}

  lemma ExpenseLifeIsTidy()
    ensures Tidy(EXPENSE_LIFE)
  {
    ExpenseLifeSuffixesDiffer();
  }

  lemma ExpenseWorkIsTidy()
    ensures Tidy(EXPENSE_WORK)
  {}

  lemma ExpenseFinanceIsTidy()
    ensures Tidy(EXPENSE_FINANCE)
  {}

  lemma IncomeWorkIsTidy()
    ensures Tidy(INCOME_WORK)
  {}

  lemma IncomeInvestmentIsTidy()
    ensures Tidy(INCOME_INVESTMENT)
  {}

  lemma IncomeOtherIsTidy()
    ensures Tidy(INCOME_OTHER)
  {}

  lemma GroupsAreApart()
    ensures forall i, j :: 0 <= i < j < |GROUPS| ==> Apart(GROUPS[i], GROUPS[j])
  {}

  /** The built-in table has what a table needs. */
  lemma DefaultsAreWellFormed()
    ensures WellFormed(DefaultCategorySpecs())
  {
    ExpenseFoodIsTidy();
    ExpenseTransportIsTidy();
    ExpenseShoppingIsTidy();
    ExpenseHomeIsTidy();
    ExpenseHealthIsTidy();
    ExpenseLifeIsTidy();
    ExpenseWorkIsTidy();
    ExpenseFinanceIsTidy();
    IncomeWorkIsTidy();
    IncomeInvestmentIsTidy();
    IncomeOtherIsTidy();
    GroupsAreApart();
    TableIsWellFormed(GROUPS);
  }
}
