/**
  The six sample transactions the transaction list is populated with, and the
  totals and chart the page shows for them when the search field is empty.
 */
module Sample {
  import opened Lists
  import opened Transactions

  const MockTransactions: seq<Transaction> := [
    Transaction(1, Expense, "Кофе", "Еда", 15000, "сум", "2025-11-27", Some("Утренний латте")),
    Transaction(2, Expense, "Такси", "Транспорт", 25000, "сум", "2025-11-27", Some("До офиса")),
    Transaction(3, Income, "Зарплата", "Доход", 5000000, "сум", "2025-11-26", None),
    Transaction(4, Expense, "Продукты", "Еда", 250000, "сум", "2025-11-26", None),
    Transaction(5, Expense, "Интернет", "Услуги", 150000, "сум", "2025-11-25", None),
    Transaction(6, Expense, "Кино", "Развлечения", 50000, "сум", "2025-11-24", None)
  ]

  /** The only income of the sample is the salary. */
  lemma SampleIncome()
    ensures Keep(MockTransactions, IsIncome) == [MockTransactions[2]]
  {
    var m := MockTransactions;
    assert Keep(m[3..], IsIncome) == [] by {
      KeepNone(m[3..], IsIncome);
    }
    assert m[2..][1..] == m[3..] && m[1..][1..] == m[2..];
    assert Keep(m[2..], IsIncome) == [m[2]];
    assert Keep(m[1..], IsIncome) == [m[2]];
  }

  /** The last three sample records are expenses. */
  lemma SampleExpenseTail()
    ensures Keep(MockTransactions[2..], IsExpense) == MockTransactions[3..]
  {
    var m := MockTransactions;
    KeepAll(m[3..], IsExpense);
    assert m[2..][1..] == m[3..];
  }

  /** Every other sample record is an expense, in the original order. */
  lemma SampleExpense()
    ensures Keep(MockTransactions, IsExpense) == [MockTransactions[0], MockTransactions[1], MockTransactions[3], MockTransactions[4], MockTransactions[5]]
  {
    var m := MockTransactions;
    SampleExpenseTail();
    assert Keep(m[1..], IsExpense) == [m[1]] + m[3..] by {
      assert m[1..][1..] == m[2..];
    }
    assert m[3..] == [m[3], m[4], m[5]];
  }

  /** With the empty query, income is 5 000 000 and expenses are 490 000. */
  lemma SampleTotals(lower: string -> string)
    requires lower("") == ""
    ensures ComputeTotals(Filter(MockTransactions, "", lower)) == Totals(5000000, 490000)
  {
    var m := MockTransactions;
    FilterEmptyQuery(m, lower);
    SampleIncome();
    SampleExpense();
    var e := [m[0], m[1], m[3], m[4], m[5]];
    assert Total(e[4..]) == 50000;
    assert Total(e[3..]) == 200000;
    assert Total(e[2..]) == 450000;
    assert Total(e[1..]) == 475000;
  }

  /** The expense categories in the order the sample first mentions them. */
  lemma SampleKeys()
    ensures Keys([MockTransactions[0], MockTransactions[1], MockTransactions[3], MockTransactions[4], MockTransactions[5]], CategoryOf)
            == ["Еда", "Транспорт", "Услуги", "Развлечения"]
  {
    var m := MockTransactions;
    var p1, p2, p3, p4 := [m[0]], [m[0], m[1]], [m[0], m[1], m[3]], [m[0], m[1], m[3], m[4]];
    KeysSnoc([], m[0], CategoryOf);
    assert [] + [m[0]] == p1;
    KeysSnoc(p1, m[1], CategoryOf);
    assert p1 + [m[1]] == p2;
    KeysSnoc(p2, m[3], CategoryOf);
    assert p2 + [m[3]] == p3;
    KeysSnoc(p3, m[4], CategoryOf);
    assert p3 + [m[4]] == p4;
    KeysSnoc(p4, m[5], CategoryOf);
    assert p4 + [m[5]] == [m[0], m[1], m[3], m[4], m[5]];
  }

  /** The category sums after the first three sample expenses. */
  lemma SampleSumsFirst()
    ensures var sums := CategorySums([MockTransactions[0], MockTransactions[1], MockTransactions[3]]);
            && "Еда" in sums && sums["Еда"] == 265000
            && "Транспорт" in sums && sums["Транспорт"] == 25000
            && "Услуги" !in sums && "Развлечения" !in sums
  {
    var m := MockTransactions;
    var p1, p2 := [m[0]], [m[0], m[1]];
    CategorySumsSnoc([], m[0]);
    assert [] + [m[0]] == p1;
    CategorySumsSnoc(p1, m[1]);
    assert p1 + [m[1]] == p2;
    CategorySumsSnoc(p2, m[3]);
    assert p2 + [m[3]] == [m[0], m[1], m[3]];
  }

  /** The expense sum of each sample category. */
  lemma SampleSums()
    ensures var sums := CategorySums([MockTransactions[0], MockTransactions[1], MockTransactions[3], MockTransactions[4], MockTransactions[5]]);
            && "Еда" in sums && sums["Еда"] == 265000
            && "Транспорт" in sums && sums["Транспорт"] == 25000
            && "Услуги" in sums && sums["Услуги"] == 150000
            && "Развлечения" in sums && sums["Развлечения"] == 50000
  {
    var m := MockTransactions;
    var p3, p4 := [m[0], m[1], m[3]], [m[0], m[1], m[3], m[4]];
    SampleSumsFirst();
    CategorySumsSnoc(p3, m[4]);
    assert p3 + [m[4]] == p4;
    CategorySumsSnoc(p4, m[5]);
    assert p4 + [m[5]] == [m[0], m[1], m[3], m[4], m[5]];
  }

  /** The chart entries listed from the sample's category sums. */
  lemma SampleEntries(sums: map<string, nat>)
    requires "Еда" in sums && sums["Еда"] == 265000
    requires "Транспорт" in sums && sums["Транспорт"] == 25000
    requires "Услуги" in sums && sums["Услуги"] == 150000
    requires "Развлечения" in sums && sums["Развлечения"] == 50000
    ensures Entries(["Еда", "Транспорт", "Услуги", "Развлечения"], sums)
            == [Slice("Еда", 265000), Slice("Транспорт", 25000), Slice("Услуги", 150000), Slice("Развлечения", 50000)]
  {
  }

  /** With the empty query, the chart of the sample data. */
  lemma SampleCategoryData(lower: string -> string)
    requires lower("") == ""
    ensures CategoryData(Filter(MockTransactions, "", lower))
            == [Slice("Еда", 265000), Slice("Транспорт", 25000), Slice("Услуги", 150000), Slice("Развлечения", 50000)]
  {
    var e := [MockTransactions[0], MockTransactions[1], MockTransactions[3], MockTransactions[4], MockTransactions[5]];
    assert Keep(Filter(MockTransactions, "", lower), IsExpense) == e by {
      FilterEmptyQuery(MockTransactions, lower);
      SampleExpense();
    }
    SampleKeys();
    SampleSums();
    SampleEntries(CategorySums(e));
  }
}
