/** The money report page `src/app/finance/reports/page.tsx`: the period
    filter over the stored transactions, the per-month income/expense
    summary behind the bar chart and the per-category expense summary
    behind the pie chart. */
module FinanceReports {
  import opened Wrappers
  import opened Calendar
  import DateKeys
  import SeqUtil
  import StableSort
  import opened FinancePage

  datatype FilterRange = ThisMonth | LastMonth | AllTime

  /** The month before (year, month): January goes back to December of the
      year before, as `new Date(year, month - 1, 1)` does. */
  function PreviousMonth(year: int, month: int): (r: (int, int))
    requires 1 <= month <= 12
    ensures 1 <= r.1 <= 12
    ensures r.1 == 12 <==> month == 1
    ensures 12 * r.0 + r.1 == 12 * year + month - 1
  {
    if month == 1 then (year - 1, 12) else (year, month - 1)
  }

  /** Whether a transaction date falls in the period. A date string that is
      not a calendar date has no month, so it only passes "all". */
  predicate InRange(range: FilterRange, date: string, today: Date)
    requires 1 <= today.month <= 12
  {
    match range
    case ThisMonth =>
      (match DateKeys.ParseKey(date)
       case Some(d) => d.month == today.month && d.year == today.year
       case None => false)
    case LastMonth =>
      var (y, m) := PreviousMonth(today.year, today.month);
      (match DateKeys.ParseKey(date)
       case Some(d) => d.month == m && d.year == y
       case None => false)
    case AllTime => true
  }

  /** `filteredTransactions`. */
  function FilterTransactions(txs: seq<Transaction>, range: FilterRange, today: Date): seq<Transaction>
    requires 1 <= today.month <= 12
  {
    SeqUtil.Filter(txs, (t: Transaction) => InRange(range, t.date, today))
  }

  /** "This month" keeps exactly the transactions dated in today's month of
      today's year, "last month" those of the month before (December of the
      previous year in January), and "all" keeps the list as it is. */
  lemma FilterTransactionsShape(txs: seq<Transaction>, today: Date)
    requires 1 <= today.month <= 12
    ensures forall t :: t in FilterTransactions(txs, ThisMonth, today) <==>
      t in txs && DateKeys.ParseKey(t.date).Some? &&
      DateKeys.ParseKey(t.date).value.year == today.year && DateKeys.ParseKey(t.date).value.month == today.month
    ensures forall t :: t in FilterTransactions(txs, LastMonth, today) <==>
      t in txs && DateKeys.ParseKey(t.date).Some? &&
      (today.month == 1 ==> DateKeys.ParseKey(t.date).value.year == today.year - 1 &&
                            DateKeys.ParseKey(t.date).value.month == 12) &&
      (today.month > 1 ==> DateKeys.ParseKey(t.date).value.year == today.year &&
                           DateKeys.ParseKey(t.date).value.month == today.month - 1)
    ensures FilterTransactions(txs, AllTime, today) == txs
  {
    SeqUtil.FilterMembers(txs, (t: Transaction) => InRange(ThisMonth, t.date, today));
    SeqUtil.FilterMembers(txs, (t: Transaction) => InRange(LastMonth, t.date, today));
    SeqUtil.FilterAll(txs, (t: Transaction) => InRange(AllTime, t.date, today));
  }

  /** The bar chart's month label: month and two-digit year, or the label of
      a date that does not parse. Years a century apart share a label. */
  datatype MonthLabel = MonthOf(yy: int, month: int) | InvalidDate

  function LabelOf(date: string): MonthLabel {
    match DateKeys.ParseKey(date)
    case Some(d) => MonthOf(d.year % 100, d.month)
    case None => InvalidDate
  }

  function LabelKey(t: Transaction): MonthLabel {
    LabelOf(t.date)
  }
  function IncomeAmount(t: Transaction): int {
    if t.txType == Income then t.amount else 0
  }
  function OtherAmount(t: Transaction): int {
    if t.txType == Income then 0 else t.amount
  }

  /** A bar: `{ month, pemasukan, pengeluaran }`. */
  datatype MonthEntry = MonthEntry(month: MonthLabel, pemasukan: int, pengeluaran: int)

  /** One bar per label in order of first appearance, before the final reversal. */
  function MonthEntries(txs: seq<Transaction>, ks: seq<MonthLabel>): (es: seq<MonthEntry>)
    ensures |es| == |ks|
    ensures forall i :: 0 <= i < |ks| ==> es[i].month == ks[i]
    ensures forall i :: 0 <= i < |ks| ==>
      es[i].pemasukan == SeqUtil.KeySum(txs, LabelKey, IncomeAmount, ks[i]) &&
      es[i].pengeluaran == SeqUtil.KeySum(txs, LabelKey, OtherAmount, ks[i])
  {
    seq(|ks|, i requires 0 <= i < |ks| =>
      MonthEntry(ks[i], SeqUtil.KeySum(txs, LabelKey, IncomeAmount, ks[i]),
                 SeqUtil.KeySum(txs, LabelKey, OtherAmount, ks[i])))
  }

  /** What `getMonthlySummary` returns: one bar per month label in use, in
      reverse order of first appearance, no label twice. */
  function MonthlySpec(txs: seq<Transaction>): (r: seq<MonthEntry>)
    ensures var ks := SeqUtil.FirstSeen(SeqUtil.Keys(txs, LabelKey));
      |r| == |ks| && forall i :: 0 <= i < |r| ==> r[i].month == ks[|ks| - 1 - i]
    ensures forall i, j :: 0 <= i < j < |r| ==> r[i].month != r[j].month
  {
    DateKeys.Reverse(MonthEntries(txs, SeqUtil.FirstSeen(SeqUtil.Keys(txs, LabelKey))))
  }

  datatype Sums = Sums(pemasukan: int, pengeluaran: int)

  /** A transaction's amount goes to income when it is income, else to the
      other side. */
  function Add(sums: Sums, t: Transaction): (r: Sums)
    ensures r == Sums(sums.pemasukan + IncomeAmount(t), sums.pengeluaran + OtherAmount(t))
  {
    if t.txType == Income then sums.(pemasukan := sums.pemasukan + t.amount)
    else sums.(pengeluaran := sums.pengeluaran + t.amount)
  }

  /** The dictionary holds, for every label in it, the sums over the first
      `i` transactions carrying that label. */
  ghost predicate MonthSumsUpTo(txs: seq<Transaction>, i: nat, summary: map<MonthLabel, Sums>)
    requires i <= |txs|
  {
    forall c :: c in summary ==>
      summary[c].pemasukan == SeqUtil.KeySum(txs[..i], LabelKey, IncomeAmount, c) &&
      summary[c].pengeluaran == SeqUtil.KeySum(txs[..i], LabelKey, OtherAmount, c)
  }

  /** The key order and the dictionary after the first `i` transactions. */
  ghost predicate MonthlyUpTo(txs: seq<Transaction>, i: nat, keys: seq<MonthLabel>, summary: map<MonthLabel, Sums>)
    requires i <= |txs|
  {
    keys == SeqUtil.FirstSeen(SeqUtil.Keys(txs, LabelKey)[..i]) &&
    (forall c :: c in summary <==> c in keys) &&
    MonthSumsUpTo(txs, i, summary)
  }

  /** `getMonthlySummary`: running sums per month label in a dictionary,
      created on a label's first use; then its entries, reversed. */
  method MonthlySummary(txs: seq<Transaction>) returns (entries: seq<MonthEntry>)
    ensures entries == MonthlySpec(txs)
  {
    var keys, summary := MonthlyFold(txs);
    var records := MonthRecords(keys, summary);
    MonthRecordsMatch(txs, keys, summary, records);
    entries := DateKeys.Reverse(records);
  }

  /** The `forEach` over the transactions: the dictionary and the order its
      keys were created in. */
  method MonthlyFold(txs: seq<Transaction>) returns (keys: seq<MonthLabel>, summary: map<MonthLabel, Sums>)
    ensures MonthlyUpTo(txs, |txs|, keys, summary)
  {
    keys, summary := [], map[];
    for i := 0 to |txs|
      invariant MonthlyUpTo(txs, i, keys, summary)
    {
      var month := LabelOf(txs[i].date);
      var keys' := if month in summary then keys else keys + [month];
      var sums := if month in summary then summary[month] else Sums(0, 0);
      ghost var prev := sums;
      if txs[i].txType == Income {
        sums := sums.(pemasukan := sums.pemasukan + txs[i].amount);
      } else {
        sums := sums.(pengeluaran := sums.pengeluaran + txs[i].amount);
      }
      MonthlyStep(txs, i, keys, summary, keys', prev, sums);
      keys, summary := keys', summary[month := sums];
    }
  }

  /** One step of the fold: a new label is appended to the key order with
      zero sums, then the transaction's amount goes to its side. */
  lemma MonthlyStep(txs: seq<Transaction>, i: nat, keys: seq<MonthLabel>, summary: map<MonthLabel, Sums>,
                    keys': seq<MonthLabel>, prev: Sums, sums: Sums)
    requires i < |txs| && MonthlyUpTo(txs, i, keys, summary)
    requires var c := LabelOf(txs[i].date);
      keys' == (if c in summary then keys else keys + [c]) &&
      prev == (if c in summary then summary[c] else Sums(0, 0))
    requires sums == Add(prev, txs[i])
    ensures MonthlyUpTo(txs, i + 1, keys', summary[LabelOf(txs[i].date) := sums])
  {
    var c := LabelOf(txs[i].date);
    SeqUtil.KeysStep(txs, i, LabelKey);
    if c !in summary {
      SeqUtil.KeyUnseen(txs, i, LabelKey, IncomeAmount, keys);
      SeqUtil.KeyUnseen(txs, i, LabelKey, OtherAmount, keys);
    }
    MonthSumsStep(txs, i, summary, prev);
  }

  /** Once every transaction is counted, the dictionary's records are the bars. */
  lemma MonthRecordsMatch(txs: seq<Transaction>, keys: seq<MonthLabel>, summary: map<MonthLabel, Sums>,
                          records: seq<MonthEntry>)
    requires MonthlyUpTo(txs, |txs|, keys, summary)
    requires |records| == |keys|
    requires forall k :: 0 <= k < |keys| ==>
      records[k] == MonthEntry(keys[k], summary[keys[k]].pemasukan, summary[keys[k]].pengeluaran)
    ensures records == MonthEntries(txs, SeqUtil.FirstSeen(SeqUtil.Keys(txs, LabelKey)))
  {
    assert txs[..|txs|] == txs;
    assert records == MonthEntries(txs, keys);
    assert SeqUtil.Keys(txs, LabelKey)[..|txs|] == SeqUtil.Keys(txs, LabelKey);
  }

  /** `Object.entries(summary).map(...)`: one bar per key, in key order. */
  method MonthRecords(keys: seq<MonthLabel>, summary: map<MonthLabel, Sums>) returns (entries: seq<MonthEntry>)
    requires forall c :: c in keys ==> c in summary
    ensures |entries| == |keys|
    ensures forall k :: 0 <= k < |keys| ==>
      entries[k] == MonthEntry(keys[k], summary[keys[k]].pemasukan, summary[keys[k]].pengeluaran)
  {
    entries := [];
    for j := 0 to |keys|
      invariant |entries| == j
      invariant forall k :: 0 <= k < j ==>
        entries[k] == MonthEntry(keys[k], summary[keys[k]].pemasukan, summary[keys[k]].pengeluaran)
    {
      entries := entries + [MonthEntry(keys[j], summary[keys[j]].pemasukan, summary[keys[j]].pengeluaran)];
    }
  }

  /** Adding the next transaction to its label's record (zero sums when the
      label is new) keeps the dictionary in step. */
  lemma MonthSumsStep(txs: seq<Transaction>, i: nat, summary: map<MonthLabel, Sums>, prev: Sums)
    requires i < |txs| && MonthSumsUpTo(txs, i, summary)
    requires var c := LabelOf(txs[i].date);
      prev == if c in summary then summary[c]
              else Sums(SeqUtil.KeySum(txs[..i], LabelKey, IncomeAmount, c),
                        SeqUtil.KeySum(txs[..i], LabelKey, OtherAmount, c))
    ensures MonthSumsUpTo(txs, i + 1, summary[LabelOf(txs[i].date) := Add(prev, txs[i])])
  {
    SeqUtil.GroupSumStep(txs, i, LabelKey, IncomeAmount);
    SeqUtil.GroupSumStep(txs, i, LabelKey, OtherAmount);
  }

  /** The sum of a field over a reversed list is the sum over the list. */
  lemma {:induction false} SumReverse<T>(s: seq<T>, f: T -> int)
    ensures SeqUtil.SumBy(DateKeys.Reverse(s), f) == SeqUtil.SumBy(s, f)
  {
    if s != [] {
      var t := s[1..];
      SumReverse(t, f);
      SeqUtil.SumConcat(DateKeys.Reverse(t), [s[0]], f);
      SeqUtil.SumConcat([s[0]], t, f);
      assert SeqUtil.SumBy([s[0]], f) == f(s[0]) by {
        assert [s[0]][..0] == [];
      }
      assert s == [s[0]] + t;
    }
  }

  /** A field of the bars adds up to the label sums they carry. */
  lemma {:induction false} SumMonthEntries(txs: seq<Transaction>, ks: seq<MonthLabel>)
    ensures SeqUtil.SumBy(MonthEntries(txs, ks), (e: MonthEntry) => e.pemasukan) ==
      SeqUtil.SumBy(ks, SeqUtil.GroupSum(txs, LabelKey, IncomeAmount))
    ensures SeqUtil.SumBy(MonthEntries(txs, ks), (e: MonthEntry) => e.pengeluaran) ==
      SeqUtil.SumBy(ks, SeqUtil.GroupSum(txs, LabelKey, OtherAmount))
  {
    if ks != [] {
      var front := ks[..|ks| - 1];
      SumMonthEntries(txs, front);
      assert MonthEntries(txs, ks)[..|ks| - 1] == MonthEntries(txs, front);
    }
  }

  /** Summing the per-transaction income share is the income total. */
  lemma {:induction false} IncomeShare(txs: seq<Transaction>)
    ensures SeqUtil.SumBy(txs, IncomeAmount) == IncomeTotal(txs)
    ensures SeqUtil.SumBy(txs, OtherAmount) == ExpenseTotal(txs)
  {
    if txs != [] {
      var n := |txs| - 1;
      IncomeShare(txs[..n]);
      TotalsStep(txs, n);
      assert txs[..n + 1] == txs;
    }
  }

  /** Each bar carries its month's income and its other amounts: the sums
      over the transactions with that label of the income share and of the
      rest. */
  lemma MonthlyBars(txs: seq<Transaction>)
    ensures var r := MonthlySpec(txs);
      forall i :: 0 <= i < |r| ==>
        r[i].pemasukan == SeqUtil.SumBy(SeqUtil.Filter(txs, SeqUtil.WithKey(LabelKey, r[i].month)), IncomeAmount) &&
        r[i].pengeluaran == SeqUtil.SumBy(SeqUtil.Filter(txs, SeqUtil.WithKey(LabelKey, r[i].month)), OtherAmount)
  {
    var r := MonthlySpec(txs);
    forall i | 0 <= i < |r|
      ensures r[i].pemasukan == SeqUtil.SumBy(SeqUtil.Filter(txs, SeqUtil.WithKey(LabelKey, r[i].month)), IncomeAmount)
      ensures r[i].pengeluaran == SeqUtil.SumBy(SeqUtil.Filter(txs, SeqUtil.WithKey(LabelKey, r[i].month)), OtherAmount)
    {
      SeqUtil.KeySumFiltered(txs, LabelKey, IncomeAmount, r[i].month);
      SeqUtil.KeySumFiltered(txs, LabelKey, OtherAmount, r[i].month);
    }
  }

  /** Every transaction's label has a bar, and every bar is the label of
      some transaction. */
  lemma MonthlyCovers(txs: seq<Transaction>)
    ensures forall i :: 0 <= i < |txs| ==>
      exists j :: 0 <= j < |MonthlySpec(txs)| && MonthlySpec(txs)[j].month == LabelOf(txs[i].date)
    ensures forall j :: 0 <= j < |MonthlySpec(txs)| ==>
      exists i :: 0 <= i < |txs| && LabelOf(txs[i].date) == MonthlySpec(txs)[j].month
  {
    var ks := SeqUtil.FirstSeen(SeqUtil.Keys(txs, LabelKey));
    var r := MonthlySpec(txs);
    forall i | 0 <= i < |txs|
      ensures exists j :: 0 <= j < |r| && r[j].month == LabelOf(txs[i].date)
    {
      assert SeqUtil.Keys(txs, LabelKey)[i] in ks;
      var k :| 0 <= k < |ks| && ks[k] == LabelOf(txs[i].date);
      assert r[|ks| - 1 - k].month == ks[k];
    }
    forall j | 0 <= j < |r|
      ensures exists i :: 0 <= i < |txs| && LabelOf(txs[i].date) == r[j].month
    {
      var m := r[j].month;
      assert m == ks[|ks| - 1 - j];
      assert m in SeqUtil.Keys(txs, LabelKey);
      var i :| 0 <= i < |txs| && SeqUtil.Keys(txs, LabelKey)[i] == m;
      assert LabelOf(txs[i].date) == m;
    }
  }

  /** The bars add up to the page's income and expense totals: every
      transaction is counted in exactly one bar. */
  lemma MonthlyTotals(txs: seq<Transaction>)
    ensures SeqUtil.SumBy(MonthlySpec(txs), (e: MonthEntry) => e.pemasukan) == IncomeTotal(txs)
    ensures SeqUtil.SumBy(MonthlySpec(txs), (e: MonthEntry) => e.pengeluaran) == ExpenseTotal(txs)
  {
    var ks := SeqUtil.FirstSeen(SeqUtil.Keys(txs, LabelKey));
    var es := MonthEntries(txs, ks);
    SumReverse(es, (e: MonthEntry) => e.pemasukan);
    SumReverse(es, (e: MonthEntry) => e.pengeluaran);
    SumMonthEntries(txs, ks);
    SeqUtil.GroupSumTotal(txs, LabelKey, IncomeAmount);
    SeqUtil.GroupSumTotal(txs, LabelKey, OtherAmount);
    IncomeShare(txs);
  }

  /** A pie slice: `{ name, value }`. */
  datatype CategoryEntry = CategoryEntry(name: string, value: int)

  predicate IsExpense(t: Transaction) {
    t.txType == Expense
  }
  function CategoryKey(t: Transaction): string {
    t.category
  }

  /** The comparator `(a, b) => b.value - a.value`: larger values first. */
  const LargerFirst: (CategoryEntry, CategoryEntry) -> bool :=
    (a: CategoryEntry, b: CategoryEntry) => b.value - a.value < 0

  lemma LargerFirstOrder()
    ensures StableSort.IsStrictWeakOrder(LargerFirst)
  {
  }

  function Expenses(txs: seq<Transaction>): seq<Transaction> {
    SeqUtil.Filter(txs, IsExpense)
  }

  /** One slice per expense category in order of first appearance, before sorting. */
  function CategoryEntries(es: seq<Transaction>, ks: seq<string>): (r: seq<CategoryEntry>)
    ensures |r| == |ks|
    ensures forall i :: 0 <= i < |ks| ==>
      r[i].name == ks[i] && r[i].value == SeqUtil.KeySum(es, CategoryKey, AmountOf, ks[i])
  {
    seq(|ks|, i requires 0 <= i < |ks| => CategoryEntry(ks[i], SeqUtil.KeySum(es, CategoryKey, AmountOf, ks[i])))
  }

  /** What `getCategorySummary` returns. */
  function CategorySpec(txs: seq<Transaction>): seq<CategoryEntry> {
    var es := Expenses(txs);
    StableSort.Sort(CategoryEntries(es, SeqUtil.FirstSeen(SeqUtil.Keys(es, CategoryKey))), LargerFirst)
  }

  /** The key order and the dictionary after the first `i` expenses. */
  ghost predicate CategoryUpTo(es: seq<Transaction>, i: nat, keys: seq<string>, summary: map<string, int>)
    requires i <= |es|
  {
    SeqUtil.KeyedUpTo(es, i, CategoryKey, AmountOf, keys, summary)
  }

  /** `getCategorySummary`: expenses only, a running sum per category in a
      dictionary, its entries sorted by value, largest first. */
  method CategorySummary(txs: seq<Transaction>) returns (entries: seq<CategoryEntry>)
    ensures entries == CategorySpec(txs)
  {
    var es := SeqUtil.Filter(txs, IsExpense);
    var keys, summary := CategoryFold(es);
    var records := CategoryRecords(keys, summary);
    CategoryRecordsMatch(es, keys, summary, records);
    entries := StableSort.Sort(records, LargerFirst);
  }

  /** The entry `if (!summary[c]) summary[c] = 0` leaves: a missing or zero
      entry is falsy and restarts at zero, which changes nothing for a zero. */
  function Restarted(summary: map<string, int>, c: string): (v: int)
    ensures v == if c in summary then summary[c] else 0
  {
    if c in summary && summary[c] != 0 then summary[c] else 0
  }

  /** The `forEach` over the expenses: the dictionary and the order its
      keys were created in. */
  method CategoryFold(es: seq<Transaction>) returns (keys: seq<string>, summary: map<string, int>)
    ensures CategoryUpTo(es, |es|, keys, summary)
  {
    keys, summary := [], map[];
    for i := 0 to |es|
      invariant CategoryUpTo(es, i, keys, summary)
    {
      var category := es[i].category;
      var base := Restarted(summary, category);
      var keys' := if category in summary then keys else keys + [category];
      SeqUtil.KeyedStep(es, i, CategoryKey, AmountOf, keys, summary, base, keys');
      keys, summary := keys', summary[category := base + es[i].amount];
    }
  }

  /** `Object.entries(summary).map(...)`: one slice per key, in key order. */
  method CategoryRecords(keys: seq<string>, summary: map<string, int>) returns (entries: seq<CategoryEntry>)
    requires forall c :: c in keys ==> c in summary
    ensures |entries| == |keys|
    ensures forall k :: 0 <= k < |keys| ==> entries[k] == CategoryEntry(keys[k], summary[keys[k]])
  {
    entries := [];
    for j := 0 to |keys|
      invariant |entries| == j
      invariant forall k :: 0 <= k < j ==> entries[k] == CategoryEntry(keys[k], summary[keys[k]])
    {
      entries := entries + [CategoryEntry(keys[j], summary[keys[j]])];
    }
  }

  /** Once every expense is counted, the dictionary's records are the
      unsorted slices. */
  lemma CategoryRecordsMatch(es: seq<Transaction>, keys: seq<string>, summary: map<string, int>,
                             records: seq<CategoryEntry>)
    requires CategoryUpTo(es, |es|, keys, summary)
    requires |records| == |keys|
    requires forall k :: 0 <= k < |keys| ==> records[k] == CategoryEntry(keys[k], summary[keys[k]])
    ensures records == CategoryEntries(es, SeqUtil.FirstSeen(SeqUtil.Keys(es, CategoryKey)))
  {
    assert es[..|es|] == es;
    assert SeqUtil.Keys(es, CategoryKey)[..|es|] == SeqUtil.Keys(es, CategoryKey);
  }

  lemma {:induction false} SumCategoryEntries(es: seq<Transaction>, ks: seq<string>)
    ensures SeqUtil.SumBy(CategoryEntries(es, ks), (e: CategoryEntry) => e.value) ==
      SeqUtil.SumBy(ks, SeqUtil.GroupSum(es, CategoryKey, AmountOf))
  {
    if ks != [] {
      SumCategoryEntries(es, ks[..|ks| - 1]);
      assert CategoryEntries(es, ks)[..|ks| - 1] == CategoryEntries(es, ks[..|ks| - 1]);
    }
  }

  /** Keeping the expenses is keeping what is not income. */
  lemma {:induction false} ExpensesAreNotIncome(txs: seq<Transaction>)
    ensures Expenses(txs) == SeqUtil.Filter(txs, NotIncome)
  {
    if txs != [] {
      ExpensesAreNotIncome(txs[..|txs| - 1]);
    }
  }

  /** The slices are sorted by value, largest first, and no category
      name appears twice. */
  lemma CategoryShape(txs: seq<Transaction>)
    ensures var r := CategorySpec(txs);
      (forall i, j :: 0 <= i < j < |r| ==> r[i].value >= r[j].value) &&
      (forall i, j :: 0 <= i < j < |r| ==> r[i].name != r[j].name)
  {
    var es := Expenses(txs);
    var unsorted := CategoryEntries(es, SeqUtil.FirstSeen(SeqUtil.Keys(es, CategoryKey)));
    LargerFirstOrder();
    StableSort.SortSorted(unsorted, LargerFirst);
    StableSort.SortDistinct(unsorted, LargerFirst, (e: CategoryEntry) => e.name);
  }

  /** There is a slice exactly for each category some expense carries, and
      it holds the sum of that category's expense amounts; income never
      enters a slice. */
  lemma CategoryMembers(txs: seq<Transaction>)
    ensures var r := CategorySpec(txs);
      (forall e :: e in r ==> e.value == SeqUtil.KeySum(Expenses(txs), CategoryKey, AmountOf, e.name)) &&
      (forall e :: e in r ==> exists t :: t in txs && t.txType == Expense && t.category == e.name) &&
      (forall t :: t in txs && t.txType == Expense ==> exists e :: e in r && e.name == t.category)
  {
    var es := Expenses(txs);
    var ks := SeqUtil.FirstSeen(SeqUtil.Keys(es, CategoryKey));
    var unsorted := CategoryEntries(es, ks);
    var r := CategorySpec(txs);
    SeqUtil.FilterMembers(txs, IsExpense);
    forall e | e in r
      ensures e.value == SeqUtil.KeySum(es, CategoryKey, AmountOf, e.name)
      ensures exists t :: t in txs && t.txType == Expense && t.category == e.name
    {
      assert e in multiset(unsorted);
      var k :| 0 <= k < |unsorted| && unsorted[k] == e;
      assert ks[k] in SeqUtil.Keys(es, CategoryKey);
      var m :| 0 <= m < |es| && SeqUtil.Keys(es, CategoryKey)[m] == ks[k];
      assert es[m] in es;
    }
    forall t | t in txs && t.txType == Expense
      ensures exists e :: e in r && e.name == t.category
    {
      assert t in es;
      var m :| 0 <= m < |es| && es[m] == t;
      assert SeqUtil.Keys(es, CategoryKey)[m] in ks;
      var k :| 0 <= k < |ks| && ks[k] == t.category;
      assert unsorted[k] in multiset(r);
    }
  }

  /** The slices add up to the page's expense total. */
  lemma CategoryTotal(txs: seq<Transaction>)
    ensures SeqUtil.SumBy(CategorySpec(txs), (e: CategoryEntry) => e.value) == ExpenseTotal(txs)
  {
    var es := Expenses(txs);
    var ks := SeqUtil.FirstSeen(SeqUtil.Keys(es, CategoryKey));
    StableSort.SortSum(CategoryEntries(es, ks), LargerFirst, (e: CategoryEntry) => e.value);
    SumCategoryEntries(es, ks);
    SeqUtil.GroupSumTotal(es, CategoryKey, AmountOf);
    ExpensesAreNotIncome(txs);
  }
}
