# Finance mini-app: transaction list and settings editor in Dafny

This project models the logic behind two screens of a small personal-finance
web app. Everything is in-memory; there is no persistence and no network.

- **Transaction list** (`TransactionsPage`):
  - a case-insensitive text search over name, category and optional description;
  - the search result grouped under the "day month" label of each date, with groups in first-seen order;
  - the expense sum per category that feeds the donut chart, also in first-seen order;
  - the income and expense totals;
  - the period selector: a period type (day, week, month, year, all time) and an offset, changed by a back arrow, a forward arrow and a drop-down, each arrow with its own disabling rule. The drop-down's change handler runs only when a different type is picked.
- **Settings editor** (`SettingsPage`): lists of categories and accounts. A category or account is added only when its typed name is not blank after `trim()`, and adding clears the name field. Deleting removes every entry with the given id.

Modules:

- `Lists`: order-preserving filtering (`Keep`, JavaScript's `Array.prototype.filter`) and the first-seen key order of a dictionary filled one element at a time (`Keys`, `Groups`), with their partition and order lemmas.
- `Transactions`: the transaction record and the four computations of the list. The two dictionary-building `forEach` loops are methods, proved equal to specification functions whose properties are proved as lemmas.
- `Period`: the selector as a transition function `Step`, its reachable states (`Valid`), and a `Navigator` class whose handlers are proved to follow `Step`.
- `Settings`: ECMAScript `trim`, delete-by-id, and an `Editor` class holding the page's lists and input fields.
- `Sample`: the six built-in transactions, with the totals and chart the page shows for them when the query is empty.

Some library calls of the original are parameters:

- `toLowerCase` becomes `lower: string -> string`.
- `new Date(date).toLocaleDateString('ru-RU', {day, month})` becomes `dateLabel: string -> string`. Two dates in different years may therefore share a label and a group.
- `Date.now()`, used as the id of a new entry, becomes the `id` argument.

## Model

| member | source | states |
|---|---|---|
| Transactions.FilterSpec | src/components/TransactionsPage.tsx:74-80 | The search result is an order-preserving subsequence of the list. A transaction is in it iff it is in the list and the lower-cased query occurs in its lower-cased name, category or present description. Each matching transaction appears exactly as often as in the list. |
| Transactions.FilterEmptyQuery | src/components/TransactionsPage.tsx:74-80 | The empty query keeps every transaction, in order. |
| Transactions.FilterWithoutDescription | src/components/TransactionsPage.tsx:76-78 | A transaction with no description is found iff its name or category contains the query. The missing description never matches and never fails. |
| Transactions.TotalsPartition | src/components/TransactionsPage.tsx:103-107 | Income total plus expense total equals the sum of all amounts in the search result. |
| Transactions.TotalUnion | src/components/TransactionsPage.tsx:104-105 | Summing a selection that is the disjoint union of two selections gives the sum of their sums. |
| Transactions.TotalAppend | src/components/TransactionsPage.tsx:104-105 | The `reduce` sum of a concatenation is the sum of the two sums. |
| Transactions.GroupByDate | src/components/TransactionsPage.tsx:82-91 | The `forEach` loop returns the group keys in creation order and the dictionary equal to `Keys`/`Groups` of the search result under the date label. |
| Transactions.DateStep | src/components/TransactionsPage.tsx:87-88 | One more transaction creates its label's group if missing (the key goes last) and appends the transaction to it. No other group changes. |
| Transactions.GroupMembership | src/components/TransactionsPage.tsx:84-88 | A group exists for a label iff some transaction's date has that label. A transaction is in that group iff it is in the result and its date has the label. |
| Transactions.DateGroupsPartition | src/components/TransactionsPage.tsx:82-91 | Concatenated in key order, the groups hold every transaction of the result exactly once (as a multiset). Each group keeps the original order. |
| Transactions.CategoryTotals | src/components/TransactionsPage.tsx:93-101 | The expense-only `forEach` loop with its `(map[c] \|\| 0) + amount` update returns exactly `CategoryData` of the search result. |
| Transactions.CategoryStep | src/components/TransactionsPage.tsx:98 | One more expense creates its category's entry from 0 if missing (the key goes last), or adds its amount to the existing entry. |
| Transactions.CategorySumsDomain | src/components/TransactionsPage.tsx:94-99 | The category dictionary has an entry for each category of the expenses and for nothing else. |
| Transactions.CategorySumsSpec | src/components/TransactionsPage.tsx:94-99 | Each entry of the dictionary equals the sum of the amounts of that category's expenses. |
| Transactions.CategorySumSnocAt | src/components/TransactionsPage.tsx:98 | The per-category sum after one more expense gains the amount only for that expense's category. |
| Transactions.KeyInTotalSplit | src/components/TransactionsPage.tsx:100 | For distinct categories, the expense sum over all of them is the first one's sum plus the rest's. |
| Transactions.EntriesSum | src/components/TransactionsPage.tsx:100 | The `Object.entries` values for distinct categories add up to the total of the expenses in those categories. |
| Transactions.CategorySumIsExpense | src/components/TransactionsPage.tsx:93-107 | The chart values add up to `totals.expense`. |
| Transactions.CategoryDataNames | src/components/TransactionsPage.tsx:93-101 | Every chart entry names a category of some expense in the result. No category appears twice. |
| Transactions.CategoryDataComplete | src/components/TransactionsPage.tsx:93-101 | Every category of an expense in the result has a chart entry; with `CategoryDataNames`, the chart names are exactly the expense categories. |
| Transactions.CategoryDataValue | src/components/TransactionsPage.tsx:96-98 | A chart entry's value is the sum of the amounts of the expenses in its category. Income never contributes. |
| Transactions.CategoryDataEmpty | src/components/TransactionsPage.tsx:93-101 | The chart data is empty iff the search result holds no expense. For example, an income-only result gives no chart. |
| Lists.KeepCount | src/components/TransactionsPage.tsx:75-79 | `filter` keeps every copy of a passing element and no copy of a failing one. |
| Lists.KeepIsSubseq | src/components/TransactionsPage.tsx:75-79 | `filter` returns an order-preserving subsequence of its input. |
| Lists.KeepKeep | src/components/TransactionsPage.tsx:95-96 | Filtering twice is filtering once by the conjunction of the two predicates. |
| Lists.KeepAppend | src/components/TransactionsPage.tsx:75-79 | `filter` distributes over concatenation. |
| Lists.KeepAll | src/components/TransactionsPage.tsx:75-79 | `filter` with a predicate every element passes returns its input. |
| Lists.KeepNone | src/components/TransactionsPage.tsx:75-79 | `filter` with a predicate no element passes returns the empty list. |
| Lists.KeysSpec | src/components/TransactionsPage.tsx:83-88 | The dictionary's keys are distinct, and they are exactly the keys of the elements. |
| Lists.KeepUnseenKey | src/components/TransactionsPage.tsx:87 | A key not yet received selects no element. |
| Lists.KeepSnocKey | src/components/TransactionsPage.tsx:88 | One more element joins exactly its own key's group, at the end. |
| Lists.GroupsSnoc | src/components/TransactionsPage.tsx:87-88 | The dictionary after one more element is the old one with that element pushed onto its key's (possibly new, empty) group. |
| Lists.KeysPrefix | src/components/TransactionsPage.tsx:84-89 | The key order after a prefix of the walk is a prefix of the final key order. |
| Lists.KeysFirstSeen | src/components/TransactionsPage.tsx:84-89 | Keys are ordered by first occurrence: wherever an element with a later key sits, an element with each earlier key occurs before it. |
| Lists.KeyInSplitAt | src/components/TransactionsPage.tsx:83-88 | For distinct keys, an element's count among those whose key is in the list equals its count in the first key's group plus its count among the other keys. |
| Lists.KeyInSplit | src/components/TransactionsPage.tsx:83-88 | For distinct keys, the elements whose key is in the list split (as a multiset) into the first key's group and the rest. |
| Lists.ConcatCount | src/components/TransactionsPage.tsx:83-88 | Groups of distinct received keys, laid end to end, hold exactly the elements with those keys. |
| Lists.GroupsPartition | src/components/TransactionsPage.tsx:82-91 | Grouping partitions the input: the groups in key order are a permutation of it. |
| Period.Step | src/components/TransactionsPage.tsx:127-158 | One action keeps `Valid`. Picking a type other than the current one sets it and resets the offset to 0. Picking the current type fires no change event and changes nothing. The arrows never change the type. The offset grows only through an enabled forward click (or a choice) and shrinks only through an enabled back click (or a choice). |
| Period.Run | src/components/TransactionsPage.tsx:35-36 | Any sequence of actions from a valid state ends in a valid state: the offset is never positive, and it is 0 under "all time". |
| Period.RunBacks | src/components/TransactionsPage.tsx:130-131 | For a type other than "all time", `n` back clicks lower the offset by exactly `n`. |
| Period.Reachable | src/components/TransactionsPage.tsx:35-36 | Every valid state is reached from the initial state (current week) by choosing its type and clicking back. So `Valid` is exactly the set of reachable states. |
| Period.ForwardUndoesBack | src/components/TransactionsPage.tsx:130-158 | In a valid state where back is enabled, back then forward returns to the same state, and forward is enabled in between. |
| Period.AllIgnoresArrows | src/components/TransactionsPage.tsx:131-158 | Under "all time", no sequence of arrow clicks changes the state. |
| Period.Navigator.constructor | src/components/TransactionsPage.tsx:35-36 | The page opens on the current week, offset 0. |
| Period.Navigator.ClickBack | src/components/TransactionsPage.tsx:128-131 | The back handler moves the state by `Step(_, Back)`. When enabled, it lowers the offset by one. |
| Period.Navigator.ClickForward | src/components/TransactionsPage.tsx:155-158 | The forward handler moves the state by `Step(_, Forward)`. When enabled, it raises the offset by one. |
| Period.Navigator.ChooseType | src/components/TransactionsPage.tsx:137-142 | Picking option `p` moves the state by `Step(_, Select(p))`. For a different type, the change handler stores `p` and resets the offset to 0. Re-picking the current type leaves both fields as they were. |
| Settings.TrimStart | src/components/SettingsPage.tsx:56 | Removes exactly the longest all-white-space prefix: the result is a suffix, everything removed is white space, and the result does not start with white space. |
| Settings.TrimEnd | src/components/SettingsPage.tsx:56 | Removes exactly the longest all-white-space suffix: the result is a prefix, everything removed is white space, and the result does not end with white space. |
| Settings.Trim | src/components/SettingsPage.tsx:56 | `trim()` is empty iff every character is white space. Otherwise it starts and ends with a non-white-space character. |
| Settings.RemoveSpec | src/components/SettingsPage.tsx:62-64 | Deleting by id is an order-preserving subsequence. It removes every entry with the id and keeps every other entry as often as it occurred. |
| Settings.RemoveAbsent | src/components/SettingsPage.tsx:73-75 | Deleting an id no entry has leaves the list unchanged. |
| Settings.RemoveTwice | src/components/SettingsPage.tsx:62-64 | Deleting the same id twice is the same as deleting it once. |
| Settings.Editor.constructor | src/components/SettingsPage.tsx:33-53 | The editor opens with the four sample categories, the two sample accounts, empty name fields and currency UZS. |
| Settings.Editor.SetNewCategoryName | src/components/SettingsPage.tsx:147 | Typing sets only the category name field. |
| Settings.Editor.SetNewAccountName | src/components/SettingsPage.tsx:198 | Typing sets only the account name field. |
| Settings.Editor.SetNewAccountCurrency | src/components/SettingsPage.tsx:204 | Choosing a currency sets only the currency field. |
| Settings.Editor.AddCategory | src/components/SettingsPage.tsx:55-60 | A non-blank name is appended once, untrimmed, with the given id, and the field is cleared. A blank name changes neither the list nor the field. Accounts and the account fields never change. |
| Settings.Editor.DeleteCategory | src/components/SettingsPage.tsx:62-64 | The categories become `Remove(old, id)` (see `RemoveSpec`). Nothing else changes. |
| Settings.Editor.AddAccount | src/components/SettingsPage.tsx:66-71 | A non-blank name becomes `{id, name, currency}` appended at the end. The name field is cleared and the currency is kept. A blank name changes nothing. Categories never change. |
| Settings.Editor.DeleteAccount | src/components/SettingsPage.tsx:73-75 | The accounts become `Remove(old, id)`. Nothing else changes. |
| Sample.SampleIncome | src/components/TransactionsPage.tsx:22-29 | The only income among the sample records is the salary. |
| Sample.SampleExpense | src/components/TransactionsPage.tsx:22-29 | The other five sample records are the expenses, in order. |
| Sample.SampleTotals | src/components/TransactionsPage.tsx:103-107 | With the empty query the sample data gives income 5000000 and expense 490000. |
| Sample.SampleKeys | src/components/TransactionsPage.tsx:22-29 | The sample's expense categories in first-seen order are Еда, Транспорт, Услуги, Развлечения. |
| Sample.SampleSums | src/components/TransactionsPage.tsx:93-101 | The sample's category sums are 265000, 25000, 150000 and 50000. |
| Sample.SampleCategoryData | src/components/TransactionsPage.tsx:93-101 | With the empty query the chart data is exactly the four entries above, in that order. |

## Left out

- `getPeriodLabel` (src/components/TransactionsPage.tsx:39-72): the label text depends on the current clock, JavaScript `Date` day roll-over and locale month names. It is not modelled. In the month and year branches the `offset === 0` case returns the same expression as the general case (src/components/TransactionsPage.tsx:61-62, 67-68), so that special case is redundant.
- The period selector does not filter the transactions in the source either. The list and chart ignore it, and so does the model.
- `formatAmount` and `toLocaleString` number grouping: display only.
- Rendering: the pie chart, dialogs, cards, icons and conditional markup.
- The language, currency and time-zone selects of the settings page: plain state setters with no logic beyond storing the value.
- src/pages/Index.tsx, src/App.tsx and src/components/AnalyticsPage.tsx: theme toggle, local storage, URL parameters, host-container calls and a static placeholder. None of them is part of this model.
- JavaScript numbers: amounts are unbounded naturals and ids unbounded integers. Floating-point rounding of very large sums is not modelled.
- `toLowerCase` and the date label are parameters, so the model does not implement Unicode case mapping or the UTC parsing of `new Date("YYYY-MM-DD")`. The lemmas hold for every such function. `Transactions.FilterEmptyQuery` and the sample lemmas assume only that lower-casing maps "" to "".
- Transactions.GroupByDate: JavaScript objects list integer-like keys (such as "12") before the others, in ascending order, and the model uses insertion order for every key. Date labels of the form "27 ноября" are never integer-like, so nothing is lost there.
- Transactions.CategoryTotals: the model uses insertion order for every key. A category named like an integer would be listed first by `Object.entries`.
- Transactions.CategoryTotals: a category named like an `Object.prototype` member (such as "toString") would read an inherited value in the source. The model treats every category as an ordinary key.
- The search in the source runs over the built-in list. The model takes the list as a parameter, and the `Sample` module fixes it to the built-in one.
- Settings.Editor: ids come from the clock in the source and are taken as an argument here. The model does not assume they are unique, so deletion removes every entry with the id.

## Notes

- The code disables back only under "all time" (src/components/TransactionsPage.tsx:131). It disables forward under "all time" or when the offset is at least 0 (src/components/TransactionsPage.tsx:158).
- `trim()` removes ECMAScript's WhiteSpace and LineTerminator characters (`Settings.IsWhiteSpace`).
