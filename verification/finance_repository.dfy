/** Finance: totals by transaction type and the balance formula, per-category and per-day
    buckets over a thirty-day window, debt settlement with its log entry, and the CSV export.
    Amounts are integers (a Double in the app). */
module FinanceRepository {
  import opened Wrappers
  import opened Seqs
  import opened TimeUtil
  import opened Text

  datatype TransactionType = INCOME | EXPENSE | BORROWED | LENT
  {
    /** The enum constant's name, as string templates render it. */
    function Name(): string {
      match this
      case INCOME => "INCOME"
      case EXPENSE => "EXPENSE"
      case BORROWED => "BORROWED"
      case LENT => "LENT"
    }
  }

  datatype TransactionCategory =
    FOOD | TRANSPORT | SHOPPING | ENTERTAINMENT | HEALTH | EDUCATION | SALARY
    | INVESTMENT | BILL | RENT | GIFT | OTHER | DEBT_REPAYMENT
  {
    function Name(): string {
      match this
      case FOOD => "FOOD"
      case TRANSPORT => "TRANSPORT"
      case SHOPPING => "SHOPPING"
      case ENTERTAINMENT => "ENTERTAINMENT"
      case HEALTH => "HEALTH"
      case EDUCATION => "EDUCATION"
      case SALARY => "SALARY"
      case INVESTMENT => "INVESTMENT"
      case BILL => "BILL"
      case RENT => "RENT"
      case GIFT => "GIFT"
      case OTHER => "OTHER"
      case DEBT_REPAYMENT => "DEBT_REPAYMENT"
    }

    /** Declaration position. */
    function Ordinal(): nat {
      match this
      case FOOD => 0 case TRANSPORT => 1 case SHOPPING => 2 case ENTERTAINMENT => 3
      case HEALTH => 4 case EDUCATION => 5 case SALARY => 6 case INVESTMENT => 7
      case BILL => 8 case RENT => 9 case GIFT => 10 case OTHER => 11 case DEBT_REPAYMENT => 12
    }
  }

  const AllCategories: seq<TransactionCategory> :=
    [FOOD, TRANSPORT, SHOPPING, ENTERTAINMENT, HEALTH, EDUCATION, SALARY,
     INVESTMENT, BILL, RENT, GIFT, OTHER, DEBT_REPAYMENT]

  datatype Transaction = Transaction(
    id: string,
    amount: int,
    txType: TransactionType,
    category: TransactionCategory,
    note: string,
    personName: Option<string>,
    date: int,
    isSettled: bool,
    receiptUri: Option<string>,
    isRecurring: bool,
    createdAt: int)

  datatype FinanceLog = FinanceLog(id: string, action: string, entityType: string, timestamp: int, description: string)

  /** The statistics record; the budget list it passes through is not part of this model. */
  datatype FinanceStats = FinanceStats(
    totalIncome: int,
    totalExpense: int,
    currentBalance: int,
    totalBorrowed: int,
    totalLent: int,
    recentTransactions: seq<Transaction>,
    categorySpending: map<TransactionCategory, int>,
    dailySpending: map<int, int>,
    incomeVsExpense: map<int, (int, int)>,
    upcomingRecurring: seq<Transaction>)

  // ---------------------------------------------------------------- sums and filters

  /** `filter { p(it) }.sumOf { it.amount }`. */
  function SumWhere(ts: seq<Transaction>, p: Transaction -> bool): int {
    if ts == [] then 0
    else (if p(ts[0]) then ts[0].amount else 0) + SumWhere(ts[1..], p)
  }

  predicate IsIncome(t: Transaction) { t.txType == INCOME }
  predicate IsExpense(t: Transaction) { t.txType == EXPENSE }
  /** Borrowed and lent money count only while the debt is open. */
  predicate IsOpenBorrowed(t: Transaction) { t.txType == BORROWED && !t.isSettled }
  predicate IsOpenLent(t: Transaction) { t.txType == LENT && !t.isSettled }

  /** Start of the thirty-day window relative to today's start. */
  function WindowStart(today: int): int { today - 30 * DayMs }

  predicate InWindow(t: Transaction, today: int) { t.date >= WindowStart(today) }

  /** getFinanceStats over the stored transactions; `now` stands for the clock, whose day
      start is "today". */
  function Stats(ts: seq<Transaction>, now: int): FinanceStats {
    var today := StartOfDay(now);
    var income := SumWhere(ts, IsIncome);
    var expense := SumWhere(ts, IsExpense);
    var borrowed := SumWhere(ts, IsOpenBorrowed);
    var lent := SumWhere(ts, IsOpenLent);
    FinanceStats(
      income, expense, income - expense + borrowed - lent, borrowed, lent,
      Take(ts, 10),
      CategorySpending(ts),
      DailySpending(ts, today),
      IncomeVsExpense(ts, today),
      Filter(ts, (t: Transaction) => t.isRecurring))
  }

  predicate ExpenseIn(t: Transaction, c: TransactionCategory) { t.txType == EXPENSE && t.category == c }

  function ExpenseCategories(ts: seq<Transaction>): set<TransactionCategory> {
    set t | t in ts && IsExpense(t) :: t.category
  }

  function CategorySpending(ts: seq<Transaction>): map<TransactionCategory, int> {
    map c | c in ExpenseCategories(ts) :: SumWhere(ts, (t: Transaction) => ExpenseIn(t, c))
  }

  predicate DayExpense(t: Transaction, today: int, day: int) {
    IsExpense(t) && InWindow(t, today) && StartOfDay(t.date) == day
  }

  function ExpenseDays(ts: seq<Transaction>, today: int): set<int> {
    set t | t in ts && IsExpense(t) && InWindow(t, today) :: StartOfDay(t.date)
  }

  function DailySpending(ts: seq<Transaction>, today: int): map<int, int> {
    map d | d in ExpenseDays(ts, today) :: SumWhere(ts, (t: Transaction) => DayExpense(t, today, d))
  }

  predicate DayOf(t: Transaction, today: int, day: int) {
    InWindow(t, today) && StartOfDay(t.date) == day
  }

  function WindowDays(ts: seq<Transaction>, today: int): set<int> {
    set t | t in ts && InWindow(t, today) :: StartOfDay(t.date)
  }

  function IncomeVsExpense(ts: seq<Transaction>, today: int): map<int, (int, int)> {
    map d | d in WindowDays(ts, today) ::
      (SumWhere(ts, (t: Transaction) => DayOf(t, today, d) && IsIncome(t)),
       SumWhere(ts, (t: Transaction) => DayOf(t, today, d) && IsExpense(t)))
  }

  // ---------------------------------------------------------------- balance

  /** What one transaction adds to the balance: income adds, expense subtracts, an open
      borrowing adds, an open loan subtracts, a settled debt adds nothing. */
  function Contribution(t: Transaction): int {
    match t.txType
    case INCOME => t.amount
    case EXPENSE => -t.amount
    case BORROWED => if t.isSettled then 0 else t.amount
    case LENT => if t.isSettled then 0 else -t.amount
  }

  function SignedSum(ts: seq<Transaction>): int {
    if ts == [] then 0 else Contribution(ts[0]) + SignedSum(ts[1..])
  }

  /** The balance formula agrees with summing each transaction's own contribution. */
  lemma BalanceIsSignedSum(ts: seq<Transaction>, now: int)
    ensures Stats(ts, now).currentBalance == SignedSum(ts)
  {
    BalanceSplit(ts);
  }

  lemma {:induction false} BalanceSplit(ts: seq<Transaction>)
    ensures SignedSum(ts) == SumWhere(ts, IsIncome) - SumWhere(ts, IsExpense)
                             + SumWhere(ts, IsOpenBorrowed) - SumWhere(ts, IsOpenLent)
  {
    if ts != [] {
      BalanceSplit(ts[1..]);
    }
  }

  /** Settled flags matter only for debts: income and expense totals ignore them, and a
      settled debt is in neither debt total. */
  lemma SettledFlagOnlyAffectsDebts(t: Transaction)
    ensures IsIncome(t.(isSettled := true)) == IsIncome(t) && IsExpense(t.(isSettled := true)) == IsExpense(t)
    ensures !IsOpenBorrowed(t.(isSettled := true)) && !IsOpenLent(t.(isSettled := true))
    ensures t.txType in {INCOME, EXPENSE} ==> Contribution(t.(isSettled := true)) == Contribution(t)
  {
  }

  lemma {:induction false} SignedSumUpdate(ts: seq<Transaction>, i: nat, x: Transaction)
    requires i < |ts|
    ensures SignedSum(ts[i := x]) == SignedSum(ts) - Contribution(ts[i]) + Contribution(x)
  {
    if i > 0 {
      SignedSumUpdate(ts[1..], i - 1, x);
      assert ts[i := x][1..] == ts[1..][i - 1 := x];
    }
  }

  // ---------------------------------------------------------------- category and day buckets

  /** Sum of a category map's values over a list of categories (absent keys count 0). */
  function CategoryTotal(m: map<TransactionCategory, int>, cats: seq<TransactionCategory>): int {
    if cats == [] then 0
    else (if cats[0] in m then m[cats[0]] else 0) + CategoryTotal(m, cats[1..])
  }

  /** The keys are exactly the categories with at least one expense, and the values over
      all categories add up to the expense total. */
  lemma CategorySpendingSums(ts: seq<Transaction>, now: int)
    ensures var s := Stats(ts, now);
      (forall c :: c in s.categorySpending <==> exists t :: t in ts && IsExpense(t) && t.category == c)
      && CategoryTotal(s.categorySpending, AllCategories) == s.totalExpense
  {
    var m := CategorySpending(ts);
    forall c ensures c in m <==> exists t :: t in ts && IsExpense(t) && t.category == c {
      if c in m {
        var t :| t in ts && IsExpense(t) && t.category == c;
      }
    }
    CategoryTotalIsPerCategorySum(ts, AllCategories);
    PerCategorySumsToExpense(ts);
  }

  /** Sum over a category list of each category's expense sum. */
  function PerCategory(ts: seq<Transaction>, cats: seq<TransactionCategory>): int {
    if cats == [] then 0 else SumWhere(ts, (t: Transaction) => ExpenseIn(t, cats[0])) + PerCategory(ts, cats[1..])
  }

  lemma {:induction false} CategoryTotalIsPerCategorySum(ts: seq<Transaction>, cats: seq<TransactionCategory>)
    ensures CategoryTotal(CategorySpending(ts), cats) == PerCategory(ts, cats)
  {
    if cats != [] {
      CategoryTotalIsPerCategorySum(ts, cats[1..]);
      var c := cats[0];
      if c !in CategorySpending(ts) {
        NoExpenseInCategory(ts, c);
      }
    }
  }

  lemma {:induction false} NoExpenseInCategory(ts: seq<Transaction>, c: TransactionCategory)
    requires forall t :: t in ts ==> !ExpenseIn(t, c)
    ensures SumWhere(ts, (t: Transaction) => ExpenseIn(t, c)) == 0
  {
    if ts != [] {
      assert ts[0] in ts;
      NoExpenseInCategory(ts[1..], c);
    }
  }

  /** Swapping the double sum: summing per category then over categories gives every
      expense exactly once, since each category appears once in the list. */
  lemma {:induction false} PerCategorySumsToExpense(ts: seq<Transaction>)
    ensures PerCategory(ts, AllCategories) == SumWhere(ts, IsExpense)
  {
    if ts == [] {
      PerCategoryEmpty(AllCategories);
    } else {
      PerCategoryCons(ts, AllCategories);
      PerCategorySumsToExpense(ts[1..]);
      OneCategoryMatches(ts[0], AllCategories);
      assert SumWhere(ts, IsExpense) == (if IsExpense(ts[0]) then ts[0].amount else 0) + SumWhere(ts[1..], IsExpense);
    }
  }

  lemma {:induction false} PerCategoryEmpty(cats: seq<TransactionCategory>)
    ensures PerCategory([], cats) == 0
  {
    if cats != [] {
      PerCategoryEmpty(cats[1..]);
    }
  }

  /** The contribution of one transaction, over a category list. */
  function PerCategoryOne(t: Transaction, cats: seq<TransactionCategory>): int {
    if cats == [] then 0 else (if ExpenseIn(t, cats[0]) then t.amount else 0) + PerCategoryOne(t, cats[1..])
  }

  lemma {:induction false} PerCategoryCons(ts: seq<Transaction>, cats: seq<TransactionCategory>)
    requires ts != []
    ensures PerCategory(ts, cats) == PerCategoryOne(ts[0], cats) + PerCategory(ts[1..], cats)
  {
    if cats != [] {
      PerCategoryCons(ts, cats[1..]);
    }
  }

  lemma {:induction false} OneCategoryMatches(t: Transaction, cats: seq<TransactionCategory>)
    requires cats == AllCategories
    ensures PerCategoryOne(t, cats) == if IsExpense(t) then t.amount else 0
  {
    forall i | 0 <= i < |cats| ensures cats[i].Ordinal() == i {
    }
    assert forall i, j :: 0 <= i < j < |cats| ==> cats[i] != cats[j] by {
      forall i, j | 0 <= i < j < |cats| ensures cats[i] != cats[j] {
        assert cats[i].Ordinal() != cats[j].Ordinal();
      }
    }
    assert t.category in cats by {
      assert cats[t.category.Ordinal()] == t.category;
    }
    CountOnce(t, cats);
  }

  lemma {:induction false} CountOnce(t: Transaction, cats: seq<TransactionCategory>)
    requires forall i, j :: 0 <= i < j < |cats| ==> cats[i] != cats[j]
    ensures PerCategoryOne(t, cats) == if IsExpense(t) && t.category in cats then t.amount else 0
  {
    if cats != [] {
      CountOnce(t, cats[1..]);
      if cats[0] == t.category {
        assert t.category !in cats[1..] by {
          forall j | 0 <= j < |cats[1..]| ensures cats[1..][j] != t.category {
            assert cats[1..][j] == cats[j + 1];
          }
        }
      }
    }
  }

  /** dailySpending: only in-window expenses, keyed by their day start; every such
      expense's day is a key. */
  lemma DailySpendingKeys(ts: seq<Transaction>, now: int)
    ensures var s := Stats(ts, now);
      (forall d :: d in s.dailySpending ==>
         (d % DayMs == 0
          && exists t :: t in ts && IsExpense(t) && t.date >= StartOfDay(now) - 30 * DayMs && StartOfDay(t.date) == d))
      && (forall t :: t in ts && IsExpense(t) && t.date >= StartOfDay(now) - 30 * DayMs ==> StartOfDay(t.date) in s.dailySpending)
  {
    var today := StartOfDay(now);
    var m := DailySpending(ts, today);
    forall d | d in m
      ensures d % DayMs == 0
      ensures exists t :: t in ts && IsExpense(t) && t.date >= today - 30 * DayMs && StartOfDay(t.date) == d
    {
      var t :| t in ts && IsExpense(t) && InWindow(t, today) && StartOfDay(t.date) == d;
    }
  }

  /** The two day maps agree: every spending day is a trend day whose expense half is that
      day's spending, and a trend day without spending has expense 0. */
  lemma DailyMatchesTrend(ts: seq<Transaction>, now: int)
    ensures var s := Stats(ts, now);
      (forall d :: d in s.dailySpending ==> d in s.incomeVsExpense && s.incomeVsExpense[d].1 == s.dailySpending[d])
      && (forall d :: d in s.incomeVsExpense && d !in s.dailySpending ==> s.incomeVsExpense[d].1 == 0)
  {
    var today := StartOfDay(now);
    var daily := DailySpending(ts, today);
    var trend := IncomeVsExpense(ts, today);
    forall d | d in daily
      ensures d in trend && trend[d].1 == daily[d]
    {
      var t :| t in ts && IsExpense(t) && InWindow(t, today) && StartOfDay(t.date) == d;
      assert t in ts && InWindow(t, today);
      SumWhereSame(ts, (t: Transaction) => DayOf(t, today, d) && IsExpense(t), (t: Transaction) => DayExpense(t, today, d));
    }
    forall d | d in trend && d !in daily
      ensures trend[d].1 == 0
    {
      SumWhereNone(ts, (t: Transaction) => DayOf(t, today, d) && IsExpense(t));
    }
  }

  lemma {:induction false} SumWhereSame(ts: seq<Transaction>, p: Transaction -> bool, q: Transaction -> bool)
    requires forall t :: p(t) == q(t)
    ensures SumWhere(ts, p) == SumWhere(ts, q)
  {
    if ts != [] {
      SumWhereSame(ts[1..], p, q);
    }
  }

  lemma {:induction false} SumWhereNone(ts: seq<Transaction>, p: Transaction -> bool)
    requires forall t :: t in ts ==> !p(t)
    ensures SumWhere(ts, p) == 0
  {
    if ts != [] {
      assert ts[0] in ts;
      SumWhereNone(ts[1..], p);
    }
  }

  /** recentTransactions is the first ten in stored order; upcomingRecurring is exactly the
      recurring ones. */
  lemma RecentAndRecurring(ts: seq<Transaction>, now: int)
    ensures var s := Stats(ts, now);
      |s.recentTransactions| == (if |ts| < 10 then |ts| else 10)
      && s.recentTransactions == ts[..|s.recentTransactions|]
      && forall t :: t in s.upcomingRecurring <==> t in ts && t.isRecurring
  {
  }

  // ---------------------------------------------------------------- settling debts

  /** `indexOfFirst { it.id == id }` over the transactions. */
  function IndexOfTransaction(ts: seq<Transaction>, id: string): Option<nat> {
    IndexOfFirst(ts, (t: Transaction) => t.id == id)
  }

  /** The currency sign exactly as the app writes it in the settlement log: the UTF-8 bytes
      of the rupee sign U+20B9 read back as Windows-1252, that is "\U{E2}\U{201A}\U{B9}". */
  const RupeeAsWritten: string := "\U{E2}\U{201A}\U{B9}"

  /** The log line for a settlement; `formatAmount` stands for Kotlin's rendering of the amount. */
  function SettleLog(debt: Transaction, logId: string, now: int, formatAmount: int -> string): FinanceLog {
    FinanceLog(logId, "SETTLED", "TRANSACTION", now,
      "Settled " + debt.txType.Name() + " of " + RupeeAsWritten + formatAmount(debt.amount)
        + " with " + debt.personName.GetOr("someone"))
  }

  /** The settlement log names the debt's type, then the sign as written, and ends with the
      person, or "someone" when there is none; the sign is not the rupee sign itself. */
  lemma SettleLogText(debt: Transaction, logId: string, now: int, formatAmount: int -> string)
    ensures var d := SettleLog(debt, logId, now, formatAmount).description;
      var head := "Settled " + debt.txType.Name() + " of " + RupeeAsWritten;
      var tail := " with " + debt.personName.GetOr("someone");
      head <= d && |head| + |tail| <= |d| && d[|d| - |tail|..] == tail
      && RupeeAsWritten != "\U{20B9}"
  {
    var head := "Settled " + debt.txType.Name() + " of " + RupeeAsWritten;
    var amount := formatAmount(debt.amount);
    var tail := " with " + debt.personName.GetOr("someone");
    var d := SettleLog(debt, logId, now, formatAmount).description;
    assert d == head + amount + tail;
    assert d == head + (amount + tail);
    assert d == (head + amount) + tail;
    assert d[|d| - |tail|..] == tail;
  }

  /** The transaction list settleDebt writes back. */
  function Settled(ts: seq<Transaction>, id: string): seq<Transaction> {
    match IndexOfTransaction(ts, id)
    case Some(i) => ts[i := ts[i].(isSettled := true)]
    case None => ts
  }

  /** The log list settleDebt writes back: one entry prepended when the id is known. */
  function SettledLogs(ts: seq<Transaction>, logs: seq<FinanceLog>, id: string, logId: string, now: int,
                       formatAmount: int -> string): seq<FinanceLog> {
    match IndexOfTransaction(ts, id)
    case Some(i) => [SettleLog(ts[i], logId, now, formatAmount)] + logs
    case None => logs
  }

  /** The repository over the stored transactions and finance logs. */
  class FinanceRepository {
    var transactions: seq<Transaction>
    var logs: seq<FinanceLog>

    constructor(ts: seq<Transaction>, ls: seq<FinanceLog>)
      ensures transactions == ts && logs == ls
    {
      transactions := ts;
      logs := ls;
    }

    /** settleDebt; `logId` and `now` stand for the log entry's generated id and timestamp. */
    method SettleDebt(id: string, logId: string, now: int, formatAmount: int -> string)
      modifies this
      ensures transactions == Settled(old(transactions), id)
      ensures logs == SettledLogs(old(transactions), old(logs), id, logId, now, formatAmount)
    {
      var ts := transactions;
      var index := IndexOfTransaction(ts, id);
      if index.Some? {
        var debt := ts[index.value];
        ts := ts[index.value := debt.(isSettled := true)];
        transactions := ts;
        var ls := logs;
        ls := [SettleLog(debt, logId, now, formatAmount)] + ls;
        logs := ls;
      }
    }

    /** generateTransactionsCSV. */
    method GenerateTransactionsCsv(formatDate: int -> string, formatAmount: int -> string) returns (csv: string)
      ensures csv == Csv(transactions, formatDate, formatAmount)
    {
      var ts := transactions;
      var sb := CsvHeader;
      var i := 0;
      assert CsvBody(ts[..0], formatDate, formatAmount) == [];
      assert sb == CsvHeader + [];
      while i < |ts|
        invariant 0 <= i <= |ts|
        invariant sb == CsvHeader + CsvBody(ts[..i], formatDate, formatAmount)
      {
        sb := AppendRecord(sb, ts[i], formatDate, formatAmount);
        CsvStep(ts, i, formatDate, formatAmount);
        i := i + 1;
      }
      assert ts[..i] == ts;
      csv := sb;
    }
  }

  /** The body of the export loop: one record's fields appended piece by piece. */
  method AppendRecord(sb0: string, t: Transaction, formatDate: int -> string, formatAmount: int -> string)
    returns (sb: string)
    ensures sb == sb0 + CsvLine(t, formatDate, formatAmount)
  {
    sb := sb0 + t.id + ",";
    sb := sb + formatDate(t.date) + ",";
    sb := sb + formatAmount(t.amount) + ",";
    sb := sb + t.txType.Name() + ",";
    sb := sb + t.category.Name() + ",";
    sb := sb + "\"" + t.note + "\",";
    sb := sb + t.personName.GetOr("") + ",";
    sb := sb + (if t.isSettled then "true" else "false") + "\n";
    LineAppends(sb0, t, formatDate, formatAmount);
  }

  /** Settling flips isSettled on the first transaction with the id, of whatever type, and
      nothing else; the log gains exactly that one entry in front. */
  lemma SettleOnlyMatching(ts: seq<Transaction>, logs: seq<FinanceLog>, id: string, logId: string, now: int,
                           formatAmount: int -> string, k: nat)
    requires k < |ts| && ts[k].id == id
    ensures var r := Settled(ts, id);
      |r| == |ts|
      && (exists i :: 0 <= i <= k && ts[i].id == id
                      && (forall j :: 0 <= j < i ==> ts[j].id != id)
                      && r[i] == ts[i].(isSettled := true)
                      && forall j :: 0 <= j < |ts| && j != i ==> r[j] == ts[j])
    ensures var l := SettledLogs(ts, logs, id, logId, now, formatAmount);
      |l| == |logs| + 1 && l[1..] == logs && l[0].action == "SETTLED" && l[0].entityType == "TRANSACTION"
  {
    var i := IndexOfTransaction(ts, id).value;
    assert i <= k;
  }

  /** Settling twice leaves the transactions as after once, while the log grows by one entry
      per call; an unknown id changes neither list. */
  lemma SettleTwice(ts: seq<Transaction>, logs: seq<FinanceLog>, id: string, logId1: string, logId2: string,
                    now1: int, now2: int, formatAmount: int -> string)
    ensures var once := Settled(ts, id);
      Settled(once, id) == once
      && |SettledLogs(once, SettledLogs(ts, logs, id, logId1, now1, formatAmount), id, logId2, now2, formatAmount)|
         == |logs| + (if IndexOfTransaction(ts, id).Some? then 2 else 0)
    ensures IndexOfTransaction(ts, id).None? ==>
      Settled(ts, id) == ts && SettledLogs(ts, logs, id, logId1, now1, formatAmount) == logs
  {
    match IndexOfTransaction(ts, id)
    case None =>
    case Some(i) =>
      var once := Settled(ts, id);
      assert once[i].id == id;
      assert IndexOfTransaction(once, id) == Some(i) by {
        var m := IndexOfTransaction(once, id);
        assert m.value <= i;
      }
      assert once[i := once[i].(isSettled := true)] == once;
  }

  /** Settling an open loan raises the balance by its amount, settling an open borrowing
      lowers it, and settling anything else leaves the balance unchanged. */
  lemma SettleBalance(ts: seq<Transaction>, id: string, now: int, k: nat)
    requires k < |ts| && ts[k].id == id
    requires forall j :: 0 <= j < k ==> ts[j].id != id
    ensures var before := Stats(ts, now).currentBalance;
      var after := Stats(Settled(ts, id), now).currentBalance;
      after == before + (if ts[k].txType == LENT && !ts[k].isSettled then ts[k].amount
                         else if ts[k].txType == BORROWED && !ts[k].isSettled then -ts[k].amount
                         else 0)
  {
    assert IndexOfTransaction(ts, id) == Some(k);
    BalanceIsSignedSum(ts, now);
    BalanceIsSignedSum(Settled(ts, id), now);
    SignedSumUpdate(ts, k, ts[k].(isSettled := true));
  }

  // ---------------------------------------------------------------- CSV

  const CsvColumns: seq<string> := ["ID", "Date", "Amount", "Type", "Category", "Note", "Person", "IsSettled"]

  /** Comma-separated fields. */
  function JoinComma(cols: seq<string>): string {
    if |cols| == 0 then "" else if |cols| == 1 then cols[0] else cols[0] + "," + JoinComma(cols[1..])
  }

  lemma {:induction false} JoinCommaSingleLine(cols: seq<string>)
    requires forall i :: 0 <= i < |cols| ==> '\n' !in cols[i]
    ensures '\n' !in JoinComma(cols)
  {
    if |cols| > 1 {
      JoinCommaSingleLine(cols[1..]);
    }
  }

  const CsvHeaderFields: string := JoinComma(CsvColumns)
  const CsvHeader: string := CsvHeaderFields + "\n"

  /** One CSV record without its line break: note in quotes without escaping, an absent
      person as an empty field. */
  function CsvFields(t: Transaction, formatDate: int -> string, formatAmount: int -> string): string {
    t.id + "," + formatDate(t.date) + "," + formatAmount(t.amount) + "," + t.txType.Name() + ","
      + t.category.Name() + "," + "\"" + t.note + "\"," + t.personName.GetOr("") + ","
      + (if t.isSettled then "true" else "false")
  }

  function CsvLine(t: Transaction, formatDate: int -> string, formatAmount: int -> string): string {
    CsvFields(t, formatDate, formatAmount) + "\n"
  }

  /** Appending a record's pieces one by one appends its line. */
  lemma LineAppends(sb: string, t: Transaction, formatDate: int -> string, formatAmount: int -> string)
    ensures sb + t.id + "," + formatDate(t.date) + "," + formatAmount(t.amount) + "," + t.txType.Name() + ","
      + t.category.Name() + "," + "\"" + t.note + "\"," + t.personName.GetOr("") + ","
      + (if t.isSettled then "true" else "false") + "\n"
      == sb + CsvLine(t, formatDate, formatAmount)
  {
    // p grows by one piece at a time, each step re-associating sb + p.
    var p := t.id;
    ConcatAssoc(sb, p, ",");
    p := p + ",";
    ConcatAssoc(sb, p, formatDate(t.date));
    p := p + formatDate(t.date);
    ConcatAssoc(sb, p, ",");
    p := p + ",";
    ConcatAssoc(sb, p, formatAmount(t.amount));
    p := p + formatAmount(t.amount);
    ConcatAssoc(sb, p, ",");
    p := p + ",";
    ConcatAssoc(sb, p, t.txType.Name());
    p := p + t.txType.Name();
    ConcatAssoc(sb, p, ",");
    p := p + ",";
    ConcatAssoc(sb, p, t.category.Name());
    p := p + t.category.Name();
    ConcatAssoc(sb, p, ",");
    p := p + ",";
    ConcatAssoc(sb, p, "\"");
    p := p + "\"";
    ConcatAssoc(sb, p, t.note);
    p := p + t.note;
    ConcatAssoc(sb, p, "\",");
    p := p + "\",";
    ConcatAssoc(sb, p, t.personName.GetOr(""));
    p := p + t.personName.GetOr("");
    ConcatAssoc(sb, p, ",");
    p := p + ",";
    ConcatAssoc(sb, p, (if t.isSettled then "true" else "false"));
    p := p + (if t.isSettled then "true" else "false");
    ConcatAssoc(sb, p, "\n");
    p := p + "\n";
    assert p == CsvLine(t, formatDate, formatAmount);
  }

  function CsvBody(ts: seq<Transaction>, formatDate: int -> string, formatAmount: int -> string): string {
    if ts == [] then "" else CsvBody(ts[..|ts| - 1], formatDate, formatAmount) + CsvLine(ts[|ts| - 1], formatDate, formatAmount)
  }

  function Csv(ts: seq<Transaction>, formatDate: int -> string, formatAmount: int -> string): string {
    CsvHeader + CsvBody(ts, formatDate, formatAmount)
  }

  lemma CsvSnoc(ts: seq<Transaction>, t: Transaction, formatDate: int -> string, formatAmount: int -> string)
    ensures CsvBody(ts + [t], formatDate, formatAmount) == CsvBody(ts, formatDate, formatAmount) + CsvLine(t, formatDate, formatAmount)
  {
    assert (ts + [t])[..|ts + [t]| - 1] == ts;
  }

  /** One turn of the export loop: the export of the first `i + 1` records extends the
      export of the first `i` by record `i`'s line. */
  lemma CsvStep(ts: seq<Transaction>, i: nat, formatDate: int -> string, formatAmount: int -> string)
    requires i < |ts|
    ensures CsvHeader + CsvBody(ts[..i + 1], formatDate, formatAmount)
      == (CsvHeader + CsvBody(ts[..i], formatDate, formatAmount)) + CsvLine(ts[i], formatDate, formatAmount)
  {
    assert ts[..i + 1] == ts[..i] + [ts[i]];
    CsvSnoc(ts[..i], ts[i], formatDate, formatAmount);
    ConcatAssoc(CsvHeader, CsvBody(ts[..i], formatDate, formatAmount), CsvLine(ts[i], formatDate, formatAmount));
  }

  function CountChar(s: string, c: char): nat {
    if s == [] then 0 else (if s[0] == c then 1 else 0) + CountChar(s[1..], c)
  }

  lemma {:induction false} CountCharAppend(a: string, b: string, c: char)
    ensures CountChar(a + b, c) == CountChar(a, c) + CountChar(b, c)
  {
    if a == [] {
      assert a + b == b;
    } else {
      CountCharAppend(a[1..], b, c);
      assert (a + b)[0] == a[0];
      assert (a + b)[1..] == a[1..] + b;
    }
  }

  lemma {:induction false} CountCharAbsent(s: string, c: char)
    requires c !in s
    ensures CountChar(s, c) == 0
  {
    if s != [] {
      CountCharAbsent(s[1..], c);
    }
  }

  /** No field of the transaction renders with a line break. */
  predicate SingleLineFields(t: Transaction, formatDate: int -> string, formatAmount: int -> string) {
    '\n' !in t.id && '\n' !in formatDate(t.date) && '\n' !in formatAmount(t.amount)
    && '\n' !in t.note && '\n' !in t.personName.GetOr("")
  }

  lemma FieldsSingleLine(t: Transaction, formatDate: int -> string, formatAmount: int -> string)
    requires SingleLineFields(t, formatDate, formatAmount)
    ensures '\n' !in CsvFields(t, formatDate, formatAmount)
  {
    assert '\n' !in t.txType.Name() && '\n' !in t.category.Name();
  }

  /** With single-line fields each transaction is exactly one line: the export has one line
      break per transaction plus the header's, and the header opens it. */
  lemma {:induction false} CsvLineCount(ts: seq<Transaction>, formatDate: int -> string, formatAmount: int -> string)
    requires forall t :: t in ts ==> SingleLineFields(t, formatDate, formatAmount)
    ensures CountChar(Csv(ts, formatDate, formatAmount), '\n') == |ts| + 1
    ensures Csv(ts, formatDate, formatAmount)[..|CsvHeader|] == CsvHeader
  {
    var body := CsvBody(ts, formatDate, formatAmount);
    CsvBodyLineCount(ts, formatDate, formatAmount);
    HeaderIsOneLine();
    CountCharAppend(CsvHeader, body, '\n');
  }

  lemma HeaderIsOneLine()
    ensures CountChar(CsvHeader, '\n') == 1
  {
    CountCharAppend(CsvHeaderFields, "\n", '\n');
    JoinCommaSingleLine(CsvColumns);
    CountCharAbsent(CsvHeaderFields, '\n');
  }

  lemma {:induction false} CsvBodyLineCount(ts: seq<Transaction>, formatDate: int -> string, formatAmount: int -> string)
    requires forall t :: t in ts ==> SingleLineFields(t, formatDate, formatAmount)
    ensures CountChar(CsvBody(ts, formatDate, formatAmount), '\n') == |ts|
  {
    if ts != [] {
      var t := ts[|ts| - 1];
      assert t in ts;
      CsvBodyLineCount(ts[..|ts| - 1], formatDate, formatAmount);
      CountCharAppend(CsvBody(ts[..|ts| - 1], formatDate, formatAmount), CsvLine(t, formatDate, formatAmount), '\n');
      FieldsSingleLine(t, formatDate, formatAmount);
      CountCharAbsent(CsvFields(t, formatDate, formatAmount), '\n');
      CountCharAppend(CsvFields(t, formatDate, formatAmount), "\n", '\n');
    }
  }
}
