/**
  The computations behind the transaction list: the text search, the
  grouping of the search result by date label, the expense totals per
  category that feed the donut chart, and the income/expense totals.

  Two library calls of the original are parameters here: `lower` stands for
  `String.prototype.toLowerCase`, and `dateLabel` for the conversion of a
  transaction's date string into its "day month" display label
  (`new Date(date).toLocaleDateString(...)`). The label carries no year, so
  dates of different years may share one.
 */
module Transactions {
  import opened Lists

  datatype Option<T> = None | Some(value: T)

  datatype Kind = Income | Expense

  /** One transaction record; `amount` is a magnitude, its direction is `kind`. */
  datatype Transaction = Transaction(
    id: int,
    kind: Kind,
    name: string,
    category: string,
    amount: nat,
    currency: string,
    date: string,
    description: Option<string>)

  /** The income and expense sums shown under the chart. */
  datatype Totals = Totals(income: nat, expense: nat)

  /** One entry of the chart data: a category and its expense sum. */
  datatype Slice = Slice(name: string, value: nat)

  // ---------------------------------------------------------------------------
  // Search

  /** `String.prototype.includes`: `part` occurs in `s` at some position. */
  predicate Contains(s: string, part: string)
    decreases |s|
  {
    part <= s || (s != [] && Contains(s[1..], part))
  }

  /**
    A transaction matches when the lower-cased query occurs in its lower-cased
    name, category or description; a missing description never matches.
   */
  predicate Matches(t: Transaction, query: string, lower: string -> string)
  {
    var q := lower(query);
    || Contains(lower(t.name), q)
    || Contains(lower(t.category), q)
    || (t.description.Some? && Contains(lower(t.description.value), q))
  }

  function MatchesQuery(query: string, lower: string -> string): Transaction -> bool
  {
    (t: Transaction) => Matches(t, query, lower)
  }

  /** The transactions shown for a search query. */
  function Filter(ts: seq<Transaction>, query: string, lower: string -> string): seq<Transaction>
  {
    Keep(ts, MatchesQuery(query, lower))
  }

  /**
    The search result is an order-preserving subsequence of the input that
    holds every matching transaction, as often as the input does, and nothing else.
   */
  lemma FilterSpec(ts: seq<Transaction>, query: string, lower: string -> string)
    ensures IsSubseq(Filter(ts, query, lower), ts)
    ensures forall t :: multiset(Filter(ts, query, lower))[t]
                        == if Matches(t, query, lower) then multiset(ts)[t] else 0
    ensures forall t :: t in Filter(ts, query, lower) <==> t in ts && Matches(t, query, lower)
  {
    KeepIsSubseq(ts, MatchesQuery(query, lower));
    forall t
      ensures multiset(Filter(ts, query, lower))[t]
              == if Matches(t, query, lower) then multiset(ts)[t] else 0
    {
      KeepCount(ts, MatchesQuery(query, lower), t);
    }
  }

  /** The empty query keeps every transaction (lower-casing leaves "" as it is). */
  lemma FilterEmptyQuery(ts: seq<Transaction>, lower: string -> string)
    requires lower("") == ""
    ensures Filter(ts, "", lower) == ts
  {
    forall t | t in ts
      ensures Matches(t, "", lower)
    {
      assert [] <= lower(t.name);
    }
    KeepAll(ts, MatchesQuery("", lower));
  }

  /** A transaction without a description is found through its name or category alone. */
  lemma FilterWithoutDescription(ts: seq<Transaction>, query: string, lower: string -> string, t: Transaction)
    requires t.description.None?
    ensures t in Filter(ts, query, lower)
            <==> t in ts && (Contains(lower(t.name), lower(query)) || Contains(lower(t.category), lower(query)))
  {
    KeepCount(ts, MatchesQuery(query, lower), t);
  }

  // ---------------------------------------------------------------------------
  // Sums

  /** The sum of the amounts, as `reduce((sum, t) => sum + t.amount, 0)`. */
  function Total(ts: seq<Transaction>): nat
  {
    if ts == [] then 0 else ts[0].amount + Total(ts[1..])
  }

  predicate IsIncome(t: Transaction) { t.kind == Income }

  predicate IsExpense(t: Transaction) { t.kind == Expense }

  function CategoryOf(t: Transaction): string { t.category }

  /** Income and expense sums of the search result. */
  function ComputeTotals(ts: seq<Transaction>): Totals
  {
    Totals(Total(Keep(ts, IsIncome)), Total(Keep(ts, IsExpense)))
  }

  lemma {:induction false} TotalAppend(a: seq<Transaction>, b: seq<Transaction>)
    ensures Total(a + b) == Total(a) + Total(b)
  {
    if a == [] {
      assert a + b == b;
    } else {
      assert (a + b)[1..] == a[1..] + b;
      TotalAppend(a[1..], b);
    }
  }

  /** Selecting by `r`, the disjoint union of `p` and `q`, sums to the two sums added. */
  lemma {:induction false} TotalUnion(s: seq<Transaction>, p: Transaction -> bool, q: Transaction -> bool, r: Transaction -> bool)
    requires forall t :: r(t) <==> p(t) || q(t)
    requires forall t :: !(p(t) && q(t))
    ensures Total(Keep(s, r)) == Total(Keep(s, p)) + Total(Keep(s, q))
  {
    if s != [] {
      TotalUnion(s[1..], p, q, r);
      var x := [s[0]];
      assert Keep(s, r) == (if r(s[0]) then x else []) + Keep(s[1..], r);
      assert Keep(s, p) == (if p(s[0]) then x else []) + Keep(s[1..], p);
      assert Keep(s, q) == (if q(s[0]) then x else []) + Keep(s[1..], q);
      TotalAppend(if r(s[0]) then x else [], Keep(s[1..], r));
      TotalAppend(if p(s[0]) then x else [], Keep(s[1..], p));
      TotalAppend(if q(s[0]) then x else [], Keep(s[1..], q));
    }
  }

  /** Income and expense together account for every amount of the search result. */
  lemma TotalsPartition(ts: seq<Transaction>)
    ensures ComputeTotals(ts).income + ComputeTotals(ts).expense == Total(ts)
  {
    var any := (t: Transaction) => true;
    TotalUnion(ts, IsIncome, IsExpense, any);
    KeepAll(ts, any);
  }

  // ---------------------------------------------------------------------------
  // Group by date

  /** The group key of a transaction: the display label of its date. */
  function DateKey(dateLabel: string -> string): Transaction -> string
  {
    (t: Transaction) => dateLabel(t.date)
  }

  /**
    Walks the search result once, creating an empty group the first time a
    date label is seen and appending each transaction to its label's group.
    `keys` is the order in which the groups were created, which is the order
    of the dictionary's entries.
   */
  method GroupByDate(ts: seq<Transaction>, dateLabel: string -> string)
    returns (keys: seq<string>, groups: map<string, seq<Transaction>>)
    ensures keys == Keys(ts, DateKey(dateLabel))
    ensures groups == Groups(ts, DateKey(dateLabel))
  {
    ghost var key := DateKey(dateLabel);
    keys, groups := [], map[];
    ghost var done: seq<Transaction> := [];
    var i := 0;
    while i < |ts|
      invariant i <= |ts| && done == ts[..i]
      invariant keys == Keys(done, key)
      invariant groups == Groups(done, key)
    {
      var t := ts[i];
      assert ts[..i + 1] == ts[..i] + [t];
      var k := dateLabel(t.date);
      DateStep(done, t, dateLabel);
      if k !in groups {
        groups := groups[k := []];
        keys := keys + [k];
      }
      groups := groups[k := groups[k] + [t]];
      done := done + [t];
      i := i + 1;
    }
    assert ts[..i] == ts;
  }

  /** One more transaction, seen from the loop: the key order and the dictionary in the dictionary's own terms. */
  lemma DateStep(s: seq<Transaction>, t: Transaction, dateLabel: string -> string)
    ensures var g, k := Groups(s, DateKey(dateLabel)), dateLabel(t.date);
            && Keys(s + [t], DateKey(dateLabel)) == (if k in g then Keys(s, DateKey(dateLabel)) else Keys(s, DateKey(dateLabel)) + [k])
            && Groups(s + [t], DateKey(dateLabel)) == g[k := (if k in g then g[k] else []) + [t]]
  {
    assert DateKey(dateLabel)(t) == dateLabel(t.date);
    KeysSnoc(s, t, DateKey(dateLabel));
    GroupsSnoc(s, t, DateKey(dateLabel));
  }

  /**
    There is a group for a label exactly when some transaction's date has that
    label, and a transaction lies in that group exactly when its own date has it.
   */
  lemma GroupMembership(ts: seq<Transaction>, dateLabel: string -> string, k: string, t: Transaction)
    ensures k in Groups(ts, DateKey(dateLabel)) <==> exists u :: u in ts && dateLabel(u.date) == k
    ensures k in Groups(ts, DateKey(dateLabel))
            ==> (t in Groups(ts, DateKey(dateLabel))[k] <==> t in ts && dateLabel(t.date) == k)
  {
    KeysSpec(ts, DateKey(dateLabel));
    KeepCount(ts, HasKey(DateKey(dateLabel), k), t);
  }

  /**
    The groups, concatenated in key order, are a permutation of the search
    result (every transaction in exactly one group), and each group keeps the
    original order.
   */
  lemma DateGroupsPartition(ts: seq<Transaction>, dateLabel: string -> string, k: string)
    ensures multiset(Concat(Groups(ts, DateKey(dateLabel)), Keys(ts, DateKey(dateLabel)))) == multiset(ts)
    ensures k in Groups(ts, DateKey(dateLabel)) ==> IsSubseq(Groups(ts, DateKey(dateLabel))[k], ts)
  {
    GroupsPartition(ts, DateKey(dateLabel));
    KeepIsSubseq(ts, HasKey(DateKey(dateLabel), k));
  }

  // ---------------------------------------------------------------------------
  // Expense totals per category

  /**
    The category dictionary after walking the expense list `e`: each expense
    adds its amount to its category's entry, which starts from 0.
   */
  function CategorySums(e: seq<Transaction>): map<string, nat>
  {
    if e == [] then map[]
    else
      var m := CategorySums(e[..|e| - 1]);
      var t := e[|e| - 1];
      m[t.category := (if t.category in m then m[t.category] else 0) + t.amount]
  }

  /** The dictionary has an entry for each category of the expenses and for nothing else. */
  lemma {:induction false} CategorySumsDomain(e: seq<Transaction>)
    ensures forall k :: k in CategorySums(e) <==> k in Keys(e, CategoryOf)
  {
    if e != [] {
      var init, t := e[..|e| - 1], e[|e| - 1];
      assert e == init + [t];
      CategorySumsDomain(init);
      KeysSnoc(init, t, CategoryOf);
      assert CategoryOf(t) == t.category;
    }
  }

  /** Each entry holds the sum of that category's amounts. */
  lemma {:induction false} CategorySumsSpec(e: seq<Transaction>)
    ensures forall k :: k in CategorySums(e) ==> CategorySums(e)[k] == Total(Keep(e, HasKey(CategoryOf, k)))
  {
    if e != [] {
      var init, t := e[..|e| - 1], e[|e| - 1];
      assert e == init + [t];
      CategorySumsSpec(init);
      CategorySumsDomain(init);
      CategorySumsDomain(e);
      KeysSnoc(init, t, CategoryOf);
      assert CategoryOf(t) == t.category;
      forall k | k in CategorySums(e)
        ensures CategorySums(e)[k] == Total(Keep(e, HasKey(CategoryOf, k)))
      {
        CategorySumSnocAt(init, t, k);
      }
    }
  }

  /** `Object.entries(categoryMap).map(...)`: the dictionary's entries in key order. */
  function Entries(names: seq<string>, sums: map<string, nat>): seq<Slice>
    requires forall k :: k in names ==> k in sums
  {
    seq(|names|, j requires 0 <= j < |names| => Slice(names[j], sums[names[j]]))
  }

  /** The chart data: the per-category expense sums, in first-seen category order. */
  function CategoryData(ts: seq<Transaction>): seq<Slice>
  {
    var e := Keep(ts, IsExpense);
    CategorySumsDomain(e);
    Entries(Keys(e, CategoryOf), CategorySums(e))
  }

  function SumValues(slices: seq<Slice>): nat
  {
    if slices == [] then 0 else slices[0].value + SumValues(slices[1..])
  }

  /**
    Walks the expenses of the search result once, adding each amount to its
    category's running sum (a missing sum counts as 0), then lists the
    dictionary's entries in the order it received their keys.
   */
  method CategoryTotals(ts: seq<Transaction>) returns (slices: seq<Slice>)
    ensures slices == CategoryData(ts)
  {
    var expenses := Keep(ts, IsExpense);
    var names: seq<string> := [];
    var sums: map<string, nat> := map[];
    var i := 0;
    while i < |expenses|
      invariant i <= |expenses|
      invariant names == Keys(expenses[..i], CategoryOf)
      invariant sums == CategorySums(expenses[..i])
    {
      var t := expenses[i];
      var previous := if t.category in sums then sums[t.category] else 0;
      CategoryStep(expenses, i);
      if t.category !in sums {
        names := names + [t.category];
      }
      sums := sums[t.category := previous + t.amount];
      i := i + 1;
    }
    assert expenses[..i] == expenses;
    CategorySumsDomain(expenses);
    slices := Entries(names, sums);
  }

  /** Taking the expense at index `i` into account, in the dictionary's own terms. */
  lemma CategoryStep(e: seq<Transaction>, i: nat)
    requires i < |e|
    ensures var m, c := CategorySums(e[..i]), e[i].category;
            && Keys(e[..i + 1], CategoryOf) == (if c in m then Keys(e[..i], CategoryOf) else Keys(e[..i], CategoryOf) + [c])
            && CategorySums(e[..i + 1]) == m[c := (if c in m then m[c] else 0) + e[i].amount]
  {
    assert e[..i + 1] == e[..i] + [e[i]];
    CategorySumsDomain(e[..i]);
    KeysSnoc(e[..i], e[i], CategoryOf);
    CategorySumsSnoc(e[..i], e[i]);
    assert CategoryOf(e[i]) == e[i].category;
  }

  /** One more expense adds its amount to its category's sum, starting from 0 for a new category. */
  lemma CategorySumsSnoc(e: seq<Transaction>, t: Transaction)
    ensures CategorySums(e + [t])
            == var m := CategorySums(e);
               m[t.category := (if t.category in m then m[t.category] else 0) + t.amount]
  {
    assert (e + [t])[..|e|] == e;
  }

  /** The sum of category `k` after one more expense `t`. */
  lemma CategorySumSnocAt(e: seq<Transaction>, t: Transaction, k: string)
    ensures Total(Keep(e + [t], HasKey(CategoryOf, k)))
            == (if k in Keys(e, CategoryOf) then Total(Keep(e, HasKey(CategoryOf, k))) else 0)
               + (if t.category == k then t.amount else 0)
  {
    KeepSnocKey(e, t, CategoryOf, k);
    TotalAppend(Keep(e, HasKey(CategoryOf, k)), [t]);
    if k !in Keys(e, CategoryOf) {
      KeepUnseenKey(e, CategoryOf, k);
    }
  }

  /** The expenses of distinct categories split into the first category's and the others'. */
  lemma KeyInTotalSplit(e: seq<Transaction>, names: seq<string>)
    requires Distinct(names) && names != []
    ensures Total(Keep(e, KeyIn(CategoryOf, names)))
         == Total(Keep(e, HasKey(CategoryOf, names[0]))) + Total(Keep(e, KeyIn(CategoryOf, names[1..])))
  {
    TotalUnion(e, HasKey(CategoryOf, names[0]), KeyIn(CategoryOf, names[1..]), KeyIn(CategoryOf, names));
  }

  /** The entries for distinct categories add up to the total of the expenses in them. */
  lemma {:induction false} EntriesSum(e: seq<Transaction>, names: seq<string>)
    requires Distinct(names)
    requires forall k :: k in names ==> k in CategorySums(e)
    ensures SumValues(Entries(names, CategorySums(e))) == Total(Keep(e, KeyIn(CategoryOf, names)))
  {
    if names == [] {
      KeepNone(e, KeyIn(CategoryOf, names));
    } else {
      var sums := CategorySums(e);
      EntriesSum(e, names[1..]);
      assert Entries(names, sums)[1..] == Entries(names[1..], sums);
      assert sums[names[0]] == Total(Keep(e, HasKey(CategoryOf, names[0]))) by {
        CategorySumsSpec(e);
      }
      KeyInTotalSplit(e, names);
    }
  }

  /** The chart values add up to the expense total. */
  lemma CategorySumIsExpense(ts: seq<Transaction>)
    ensures SumValues(CategoryData(ts)) == ComputeTotals(ts).expense
  {
    var e := Keep(ts, IsExpense);
    KeysSpec(e, CategoryOf);
    CategorySumsDomain(e);
    EntriesSum(e, Keys(e, CategoryOf));
    KeepAll(e, KeyIn(CategoryOf, Keys(e, CategoryOf)));
  }

  /** The predicate "an expense in category c". */
  function ExpenseIn(c: string): Transaction -> bool
  {
    (t: Transaction) => t.kind == Expense && t.category == c
  }

  /** The chart entries name categories that have an expense, none of them twice. */
  lemma CategoryDataNames(ts: seq<Transaction>, j: nat)
    requires j < |CategoryData(ts)|
    ensures exists t :: t in ts && t.kind == Expense && t.category == CategoryData(ts)[j].name
    ensures forall i :: 0 <= i < |CategoryData(ts)| && i != j ==> CategoryData(ts)[i].name != CategoryData(ts)[j].name
  {
    var e := Keep(ts, IsExpense);
    var c := CategoryData(ts)[j].name;
    assert c == Keys(e, CategoryOf)[j];
    KeysSpec(e, CategoryOf);
    assert c in Keys(e, CategoryOf);
    var u :| u in e && CategoryOf(u) == c;
    KeepCount(ts, IsExpense, u);
  }

  /** Conversely, every category of an expense in the search result has a chart entry. */
  lemma CategoryDataComplete(ts: seq<Transaction>, t: Transaction)
    requires t in ts && t.kind == Expense
    ensures exists j :: 0 <= j < |CategoryData(ts)| && CategoryData(ts)[j].name == t.category
  {
    var e := Keep(ts, IsExpense);
    KeepCount(ts, IsExpense, t);
    KeysSpec(e, CategoryOf);
    var names := Keys(e, CategoryOf);
    assert multiset(e)[t] > 0;
    assert CategoryOf(t) in names;
    var j :| 0 <= j < |names| && names[j] == t.category;
    assert CategoryData(ts)[j].name == names[j];
  }

  /**
    The value of a chart entry is the sum of the amounts of the expenses in
    its category; income never contributes.
   */
  lemma CategoryDataValue(ts: seq<Transaction>, j: nat)
    requires j < |CategoryData(ts)|
    ensures CategoryData(ts)[j].value == Total(Keep(ts, ExpenseIn(CategoryData(ts)[j].name)))
  {
    var e := Keep(ts, IsExpense);
    var c := CategoryData(ts)[j].name;
    assert c == Keys(e, CategoryOf)[j];
    assert CategoryData(ts)[j].value == Total(Keep(e, HasKey(CategoryOf, c))) by {
      KeysSpec(e, CategoryOf);
      CategorySumsDomain(e);
      CategorySumsSpec(e);
    }
    KeepKeep(ts, IsExpense, HasKey(CategoryOf, c), ExpenseIn(c));
  }

  /** The chart is empty exactly when the search result holds no expense. */
  lemma CategoryDataEmpty(ts: seq<Transaction>)
    ensures CategoryData(ts) == [] <==> forall t :: t in ts ==> t.kind == Income
  {
    var e := Keep(ts, IsExpense);
    if forall t :: t in ts ==> t.kind == Income {
      KeepNone(ts, IsExpense);
    } else {
      var t :| t in ts && t.kind == Expense;
      KeepCount(ts, IsExpense, t);
      assert t in e;
      KeysSpec(e, CategoryOf);
      assert CategoryOf(t) in Keys(e, CategoryOf);
    }
  }
}
