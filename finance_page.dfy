/** The money page `src/app/finance/page.tsx`: the transaction list kept
    newest date first, the income/expense totals, the add form's guard and
    the edit dialog. Amounts are whole currency units. */
module FinancePage {
  import opened Wrappers
  import Text
  import DateKeys
  import SeqUtil
  import StableSort

  datatype TxType = Income | Expense

  /** `date` is the `YYYY-MM-DD` string the form stored. */
  datatype Transaction = Transaction(
    id: string,
    date: string,
    description: string,
    amount: int,
    txType: TxType,
    category: string)

  /** A transaction before it has an id (`Omit<Transaction, 'id'>`). */
  datatype Draft = Draft(date: string, description: string, amount: int, txType: TxType, category: string)

  function AmountOf(t: Transaction): int {
    t.amount
  }
  predicate IsIncome(t: Transaction) {
    t.txType == Income
  }
  predicate NotIncome(t: Transaction) {
    t.txType != Income
  }

  /** Σ amounts of the income transactions. */
  function IncomeTotal(txs: seq<Transaction>): int {
    SeqUtil.SumBy(SeqUtil.Filter(txs, IsIncome), AmountOf)
  }

  /** Σ amounts of every other transaction. */
  function ExpenseTotal(txs: seq<Transaction>): int {
    SeqUtil.SumBy(SeqUtil.Filter(txs, NotIncome), AmountOf)
  }

  /** The `reduce` over the list: each amount goes to the income or the
      expense total by type, and the balance is their difference. */
  method Totals(txs: seq<Transaction>) returns (totalIncome: int, totalExpense: int, balance: int)
    ensures totalIncome == IncomeTotal(txs) && totalExpense == ExpenseTotal(txs)
    ensures balance == totalIncome - totalExpense
  {
    totalIncome, totalExpense, balance := 0, 0, 0;
    for i := 0 to |txs|
      invariant totalIncome == IncomeTotal(txs[..i]) && totalExpense == ExpenseTotal(txs[..i])
      invariant balance == totalIncome - totalExpense
    {
      TotalsStep(txs, i);
      if txs[i].txType == Income {
        totalIncome := totalIncome + txs[i].amount;
      } else {
        totalExpense := totalExpense + txs[i].amount;
      }
      balance := totalIncome - totalExpense;
    }
    assert txs[..|txs|] == txs;
  }

  lemma TotalsStep(txs: seq<Transaction>, i: nat)
    requires i < |txs|
    ensures IncomeTotal(txs[..i + 1]) == IncomeTotal(txs[..i]) + (if txs[i].txType == Income then txs[i].amount else 0)
    ensures ExpenseTotal(txs[..i + 1]) == ExpenseTotal(txs[..i]) + (if txs[i].txType == Income then 0 else txs[i].amount)
  {
    assert txs[..i + 1][..i] == txs[..i];
    SeqUtil.SumStep(SeqUtil.Filter(txs[..i], IsIncome), txs[i], IsIncome(txs[i]), AmountOf);
    SeqUtil.SumStep(SeqUtil.Filter(txs[..i], NotIncome), txs[i], NotIncome(txs[i]), AmountOf);
  }

  /** Every transaction is counted in exactly one total: together they are
      the sum of all amounts. */
  lemma TotalsCoverAll(txs: seq<Transaction>)
    ensures IncomeTotal(txs) + ExpenseTotal(txs) == SeqUtil.SumBy(txs, AmountOf)
  {
    var any := (t: Transaction) => true;
    SeqUtil.SumFilterUnion(txs, IsIncome, NotIncome, any, AmountOf);
    SeqUtil.FilterAll(txs, any);
  }

  /** The comparator `(a, b) => b.date.localeCompare(a.date)`: `a` goes
      first when its date is later. */
  const LaterFirst: (Transaction, Transaction) -> bool :=
    (a: Transaction, b: Transaction) => DateKeys.LexLess(b.date, a.date)

  /** The comparator is a strict weak order, so sorting with it is sound. */
  lemma LaterFirstOrder()
    ensures StableSort.IsStrictWeakOrder(LaterFirst)
  {
    forall a: Transaction, b: Transaction | LaterFirst(a, b)
      ensures !LaterFirst(b, a)
    {
      DateKeys.LexAsymmetric(b.date, a.date);
    }
    forall a: Transaction, b: Transaction, c: Transaction | LaterFirst(a, c)
      ensures LaterFirst(a, b) || LaterFirst(b, c)
    {
      DateKeys.LexTotal(a.date, b.date);
      DateKeys.LexTotal(b.date, c.date);
      if DateKeys.LexLess(a.date, b.date) && DateKeys.LexLess(b.date, c.date) {
        DateKeys.LexTransitive(a.date, b.date, c.date);
        DateKeys.LexAsymmetric(a.date, c.date);
      } else if DateKeys.LexLess(a.date, b.date) && b.date == c.date {
        DateKeys.LexAsymmetric(a.date, c.date);
      } else if a.date == b.date && DateKeys.LexLess(b.date, c.date) {
        DateKeys.LexAsymmetric(a.date, c.date);
      } else if a.date == b.date && b.date == c.date {
        DateKeys.LexIrreflexive(a.date);
      }
    }
  }

  function ByDate(txs: seq<Transaction>): seq<Transaction> {
    StableSort.Sort(txs, LaterFirst)
  }

  /** `{ ...transaction, id: `txn-${now}` }`. */
  function NewTransaction(draft: Draft, now: nat): Transaction {
    Transaction("txn-" + Text.NatToString(now), draft.date, draft.description, draft.amount, draft.txType, draft.category)
  }

  /** `handleAddTransaction`: the new transaction in front, then sorted. */
  function AddTransaction(txs: seq<Transaction>, draft: Draft, now: nat): seq<Transaction> {
    ByDate([NewTransaction(draft, now)] + txs)
  }

  /** Adding yields the old list plus the new transaction, newest date
      first. On a list already in that order, the new one goes right after
      the strictly later dates, so it precedes every transaction of its own
      date and the others keep their order. */
  lemma AddTransactionShape(txs: seq<Transaction>, draft: Draft, now: nat)
    ensures var r := AddTransaction(txs, draft, now);
      |r| == |txs| + 1 && multiset(r) == multiset(txs) + multiset{NewTransaction(draft, now)} &&
      StableSort.Sorted(r, LaterFirst)
    ensures StableSort.Sorted(txs, LaterFirst) ==>
      var t := NewTransaction(draft, now);
      var k := StableSort.PrefixBefore(t, txs, LaterFirst);
      AddTransaction(txs, draft, now) == txs[..k] + [t] + txs[k..] &&
      (forall i :: 0 <= i < k ==> DateKeys.LexLess(t.date, txs[i].date)) &&
      (k < |txs| ==> !DateKeys.LexLess(t.date, txs[k].date))
  {
    var t := NewTransaction(draft, now);
    var s := [t] + txs;
    assert s[0] == t && s[1..] == txs;
    assert multiset(s) == multiset(txs) + multiset{t};
    LaterFirstOrder();
    StableSort.SortSorted(s, LaterFirst);
    if StableSort.Sorted(txs, LaterFirst) {
      StableSort.SortOfSorted(txs, LaterFirst);
      StableSort.InsertAt(t, txs, LaterFirst);
    }
  }

  /** `prev.map(t => t.id === updated.id ? updated : t)`. */
  function ReplaceById(txs: seq<Transaction>, u: Transaction): seq<Transaction> {
    SeqUtil.ReplaceByKey(txs, u, TransactionId)
  }

  function TransactionId(t: Transaction): string {
    t.id
  }

  /** `handleUpdateTransaction`: replace by id, then sort. */
  function UpdateTransaction(txs: seq<Transaction>, u: Transaction): seq<Transaction> {
    ByDate(ReplaceById(txs, u))
  }

  /** Updating keeps the length, holds the updated transaction wherever its
      id was and the others unchanged, and sorts newest first; an update
      whose id is absent leaves a sorted list as it was. */
  lemma UpdateTransactionShape(txs: seq<Transaction>, u: Transaction)
    ensures |UpdateTransaction(txs, u)| == |txs|
    ensures StableSort.Sorted(UpdateTransaction(txs, u), LaterFirst)
    ensures multiset(UpdateTransaction(txs, u)) == multiset(ReplaceById(txs, u))
    ensures forall i :: 0 <= i < |txs| ==>
      ReplaceById(txs, u)[i] == (if txs[i].id == u.id then u else txs[i])
    ensures StableSort.Sorted(txs, LaterFirst) && (forall i :: 0 <= i < |txs| ==> txs[i].id != u.id) ==>
      UpdateTransaction(txs, u) == txs
  {
    LaterFirstOrder();
    SeqUtil.ReplaceByKeyShape(txs, u, TransactionId);
    StableSort.SortSorted(ReplaceById(txs, u), LaterFirst);
    if forall i :: 0 <= i < |txs| ==> txs[i].id != u.id {
      assert ReplaceById(txs, u) == txs;
      if StableSort.Sorted(txs, LaterFirst) {
        StableSort.SortOfSorted(txs, LaterFirst);
      }
    }
  }

  /** `handleDeleteTransaction`. */
  function DeleteTransaction(txs: seq<Transaction>, id: string): seq<Transaction> {
    SeqUtil.Filter(txs, (t: Transaction) => t.id != id)
  }

  /** Deleting removes exactly the transactions with the id, and a list in
      date order stays in date order. */
  lemma DeleteTransactionShape(txs: seq<Transaction>, id: string)
    ensures forall t :: t in DeleteTransaction(txs, id) <==> t in txs && t.id != id
    ensures StableSort.Sorted(txs, LaterFirst) ==> StableSort.Sorted(DeleteTransaction(txs, id), LaterFirst)
  {
    SeqUtil.FilterMembers(txs, (t: Transaction) => t.id != id);
    if StableSort.Sorted(txs, LaterFirst) {
      StableSort.FilterSorted(txs, (t: Transaction) => t.id != id, LaterFirst);
    }
  }

  const ExpenseCategories: seq<string> :=
    ["Makanan", "Transportasi", "Tagihan", "Hiburan", "Belanja", "Kesehatan", "Lainnya"]
  const IncomeCategories: seq<string> :=
    ["Gaji", "Bonus", "Investasi", "Hadiah", "Pekerjaan Sampingan", "Lainnya"]

  /** The category choices offered for a type. */
  function OfferedCategories(t: TxType): seq<string> {
    if t == Income then IncomeCategories else ExpenseCategories
  }

  /** Either list offers distinct, non-empty names and ends with "Lainnya",
      the choice that opens the free-text category field. */
  lemma OfferedCategoriesShape(t: TxType)
    ensures var cs := OfferedCategories(t);
      |cs| >= 1 && cs[|cs| - 1] == "Lainnya" &&
      (forall i :: 0 <= i < |cs| ==> cs[i] != "") &&
      (forall i, j :: 0 <= i < j < |cs| ==> cs[i] != cs[j])
  {
  }

  /** `AddTransactionForm.handleSubmit`: `amount` is the number read from the
      non-empty amount field. Nothing is submitted when the description or
      the amount field is empty or no category is given; a custom category
      wins over the selected one. */
  function FormDraft(description: string, amountField: string, amount: int, txType: TxType,
                     category: string, customCategory: string, today: string): (r: Option<Draft>)
    ensures r.None? <==> description == "" || amountField == "" || (category == "" && customCategory == "")
    ensures r.Some? ==> (r.value.description == description && r.value.amount == amount &&
                         r.value.txType == txType && r.value.date == today && r.value.category != "")
    ensures r.Some? && customCategory != "" ==> r.value.category == customCategory
    ensures r.Some? && customCategory == "" ==> r.value.category == category
  {
    if description == "" || amountField == "" || (category == "" && customCategory == "") then None
    else Some(Draft(today, description, amount, txType, if customCategory != "" then customCategory else category))
  }

  /** The add form's fields. */
  class AddForm {
    var description: string
    var amountField: string
    var txType: TxType
    var category: string
    var customCategory: string

    constructor()
      ensures description == "" && amountField == "" && txType == Expense
      ensures category == "" && customCategory == ""
    {
      description, amountField, txType := "", "", Expense;
      category, customCategory := "", "";
    }

    method Fill(description: string, amountField: string, txType: TxType, category: string, customCategory: string)
      modifies this
      ensures this.description == description && this.amountField == amountField && this.txType == txType
      ensures this.category == category && this.customCategory == customCategory
    {
      this.description, this.amountField, this.txType := description, amountField, txType;
      this.category, this.customCategory := category, customCategory;
    }

    /** Submitting hands over the draft and clears every text field; a
        rejected submit changes nothing. The type stays as chosen. */
    method Submit(amount: int, today: string) returns (draft: Option<Draft>)
      modifies this
      ensures draft == FormDraft(old(description), old(amountField), amount, old(txType),
                                 old(category), old(customCategory), today)
      ensures draft.None? ==> (description == old(description) && amountField == old(amountField) &&
                               category == old(category) && customCategory == old(customCategory))
      ensures draft.Some? ==> description == "" && amountField == "" && category == "" && customCategory == ""
      ensures txType == old(txType)
    {
      if description == "" || amountField == "" || (category == "" && customCategory == "") {
        return None;
      }
      draft := Some(Draft(today, description, amount, txType,
                          if customCategory != "" then customCategory else category));
      description, amountField, category, customCategory := "", "", "", "";
    }
  }

  /** The edit dialog's submit: the edited fields over the original, which
      keeps its id and date. */
  function EditedTransaction(original: Transaction, description: string, amount: int, txType: TxType, category: string): (r: Transaction)
    ensures r.id == original.id && r.date == original.date
    ensures r.description == description && r.amount == amount && r.txType == txType && r.category == category
  {
    original.(description := description, amount := amount, txType := txType, category := category)
  }

  /** The page's state: the list and the transaction open in the edit dialog. */
  class FinanceBoard {
    var transactions: seq<Transaction>
    var editing: Option<Transaction>

    constructor(stored: seq<Transaction>)
      ensures transactions == stored && editing == None
    {
      transactions := stored;
      editing := None;
    }

    method Add(draft: Draft, now: nat)
      modifies this
      ensures transactions == AddTransaction(old(transactions), draft, now) && editing == old(editing)
    {
      var t := NewTransaction(draft, now);
      transactions := ByDate([t] + transactions);
    }

    method StartEdit(t: Transaction)
      modifies this
      ensures editing == Some(t) && transactions == old(transactions)
    {
      editing := Some(t);
    }

    method CloseEdit()
      modifies this
      ensures editing == None && transactions == old(transactions)
    {
      editing := None;
    }

    method Update(u: Transaction)
      modifies this
      ensures transactions == UpdateTransaction(old(transactions), u) && editing == None
    {
      transactions := ByDate(ReplaceById(transactions, u));
      editing := None;
    }

    method Delete(id: string)
      modifies this
      ensures transactions == DeleteTransaction(old(transactions), id) && editing == None
    {
      transactions := DeleteTransaction(transactions, id);
      editing := None;
    }
  }
}
