/** The dashboard's derived figures: net worth, monthly spend, safe-to-spend,
    spend by category and the six-month income/expense trend. Date strings
    are resolved to months by the caller and passed in as functions: the
    source uses the browser's `Date` parser, whose output for strings like
    "Nov 18, 6:30 PM" is implementation-defined. */
module Analytics {
  import opened Wrappers
  import opened Entities
  import opened Seqs
  import Debt

  // ---------------------------------------------------------------------
  // Dashboard metrics
  // ---------------------------------------------------------------------

  /** The account switcher: every account, or the one with this id. */
  datatype AccountFilter = AllAccounts | OnlyAccount(id: string)

  function FilterAccounts(accounts: seq<Account>, f: AccountFilter): (r: seq<Account>)
    ensures f.AllAccounts? ==> r == accounts
    ensures f.OnlyAccount? ==> forall a :: a in r <==> a in accounts && a.id == f.id
  {
    match f
    case AllAccounts => accounts
    case OnlyAccount(id) => Filter(accounts, (a: Account) => a.id == id)
  }

  function FilterTransactions(txs: seq<Transaction>, f: AccountFilter): (r: seq<Transaction>)
    ensures f.AllAccounts? ==> r == txs
    ensures f.OnlyAccount? ==> forall t :: t in r <==> t in txs && t.accountId == f.id
  {
    match f
    case AllAccounts => txs
    case OnlyAccount(id) => Filter(txs, (t: Transaction) => t.accountId == id)
  }

  /** `accounts.reduce((acc, a) => acc + a.balance, 0)`. */
  function NetWorth(accounts: seq<Account>): int {
    SumOf(accounts, Balance)
  }

  /** Checking, savings and investment accounts: everything but debts. */
  predicate IsAsset(a: Account) {
    !IsDebt(a)
  }

  /** With debts stored as non-positive balances, net worth is what the other
      accounts hold less the total the debt planner reports as owed. */
  lemma {:induction false} NetWorthIsAssetsLessDebt(accounts: seq<Account>)
    requires forall a :: a in accounts && IsDebt(a) ==> a.balance <= 0
    ensures NetWorth(accounts) == NetWorth(Filter(accounts, IsAsset)) - Debt.TotalDebt(accounts)
  {
    var debts := Debt.DebtAccounts(accounts);
    SumOfSplit(accounts, IsDebt, IsAsset, Balance);
    assert forall i :: 0 <= i < |debts| ==> debts[i] in debts;
    Debt.SumNonPositive(debts);
    assert Debt.TotalDebt(accounts) == -SumOf(debts, Balance);
  }

  /** What a transaction costs: its magnitude when it is an expense. */
  function ExpenseOf(t: Transaction): int {
    if t.amount < 0 then -t.amount else 0
  }

  /** `Math.abs` of the summed negative amounts whose date falls in `month`
      according to `rawMonth` (`new Date(t.date).getMonth()`, where `None`
      is the `NaN` of an unparseable date). */
  function MonthlySpend(txs: seq<Transaction>, month: MonthIndex, rawMonth: Transaction -> Option<MonthIndex>): (r: nat)
    ensures r == SumOf(txs, t => if rawMonth(t) == Some(month) then ExpenseOf(t) else 0)
  {
    var spent := Filter(txs, (t: Transaction) => t.amount < 0 && rawMonth(t) == Some(month));
    SpendSum(txs, month, rawMonth);
    Abs(SumOf(spent, Amount))
  }

  /** The absolute value of a sum of negative amounts is the sum of their
      magnitudes. */
  lemma {:induction false} SpendSum(txs: seq<Transaction>, month: MonthIndex, rawMonth: Transaction -> Option<MonthIndex>)
    ensures var spent := Filter(txs, (t: Transaction) => t.amount < 0 && rawMonth(t) == Some(month));
      SumOf(spent, Amount) <= 0
      && -SumOf(spent, Amount) == SumOf(txs, t => if rawMonth(t) == Some(month) then ExpenseOf(t) else 0)
  {
    if txs != [] {
      SpendSum(txs[1..], month, rawMonth);
    }
  }

  predicate IsChecking(a: Account) {
    a.kind == Checking
  }

  /** Safe to spend per day: the checking balances spread over 30 days, or
      `None` (the 'N/A' label) when there is no checking account. */
  function SafeToSpend(accounts: seq<Account>): (r: Option<real>)
    ensures r.None? <==> forall a :: a in accounts ==> !IsChecking(a)
    ensures r.Some? ==> r.value * 30.0 == NetWorth(Filter(accounts, IsChecking)) as real
  {
    var checking := Filter(accounts, IsChecking);
    if |checking| > 0 then
      assert checking[0] in checking;
      Some(NetWorth(checking) as real / 30.0)
    else
      assert forall a :: a in accounts ==> a !in checking;
      None
  }

  /** The planning view's daily figure: the first checking account's balance
      less all subscription amounts, over 30 days; `None` is the `NaN` that
      `undefined - total` gives when there is no checking account. */
  function DailySafe(accounts: seq<Account>, subscriptions: seq<Subscription>): (r: Option<real>)
    ensures r.None? <==> forall a :: a in accounts ==> !IsChecking(a)
    ensures r.Some? ==> exists i :: (0 <= i < |accounts| && IsChecking(accounts[i])
      && (forall j :: 0 <= j < i ==> !IsChecking(accounts[j]))
      && r.value * 30.0 == (accounts[i].balance - SumOf(subscriptions, (s: Subscription) => s.amount)) as real)
  {
    match FirstIndex(accounts, IsChecking)
    case None => None
    case Some(i) =>
      var v := (accounts[i].balance - SumOf(subscriptions, (s: Subscription) => s.amount)) as real / 30.0;
      assert v * 30.0 == (accounts[i].balance - SumOf(subscriptions, (s: Subscription) => s.amount)) as real;
      Some(v)
  }

  datatype Metrics = Metrics(netWorth: int, monthlySpend: nat, safeToSpend: Option<real>)

  /** The three dashboard cards for the selected account filter. */
  function Dashboard(s: AppState, f: AccountFilter, month: MonthIndex, rawMonth: Transaction -> Option<MonthIndex>): (r: Metrics)
    ensures f.AllAccounts? ==> r.netWorth == NetWorth(s.accounts)
    ensures f.OnlyAccount? ==> r.netWorth == SumOf(s.accounts, (a: Account) => if a.id == f.id then a.balance else 0)
    ensures r.monthlySpend == SumOf(FilterTransactions(s.transactions, f),
                                    t => if rawMonth(t) == Some(month) then ExpenseOf(t) else 0)
    ensures r.safeToSpend.None? <==> forall a :: a in s.accounts && (f.OnlyAccount? ==> a.id == f.id) ==> !IsChecking(a)
    ensures r.safeToSpend.Some? ==>
      r.safeToSpend.value * 30.0 == SumOf(s.accounts, CheckingIn(f)) as real
  {
    var accounts := FilterAccounts(s.accounts, f);
    assert f.OnlyAccount? ==>
      NetWorth(accounts) == SumOf(s.accounts, (a: Account) => if a.id == f.id then a.balance else 0) by {
      if f.OnlyAccount? {
        SumOfFilter(s.accounts, (a: Account) => a.id == f.id, Balance,
                    (a: Account) => if a.id == f.id then a.balance else 0);
      }
    }
    CheckingTotal(s.accounts, f);
    Metrics(NetWorth(accounts),
            MonthlySpend(FilterTransactions(s.transactions, f), month, rawMonth),
            SafeToSpend(accounts))
  }

  /** The balance an account adds to the safe-to-spend figure under the
      filter: its own when it is a selected checking account, else zero. */
  function CheckingIn(f: AccountFilter): Account -> int {
    (a: Account) => if IsChecking(a) && (f.OnlyAccount? ==> a.id == f.id) then a.balance else 0
  }

  lemma CheckingTotal(accounts: seq<Account>, f: AccountFilter)
    ensures NetWorth(Filter(FilterAccounts(accounts, f), IsChecking)) == SumOf(accounts, CheckingIn(f))
  {
    var chosen := (a: Account) => if IsChecking(a) then a.balance else 0;
    SumOfFilter(FilterAccounts(accounts, f), IsChecking, Balance, chosen);
    if f.OnlyAccount? {
      SumOfFilter(accounts, (a: Account) => a.id == f.id, chosen, CheckingIn(f));
    } else {
      SumOfFilter(accounts, IsChecking, Balance, CheckingIn(f));
    }
  }

  // ---------------------------------------------------------------------
  // Spend by category
  // ---------------------------------------------------------------------

  /** `t.category || 'Uncategorized'`. */
  function CategoryOf(t: Transaction): string {
    if t.category == "" then "Uncategorized" else t.category
  }

  /** The `categoryTotals` object as an association list in key insertion order. */
  type Totals = seq<(string, int)>

  function Keys(totals: Totals): set<string> {
    set i | 0 <= i < |totals| :: totals[i].0
  }

  predicate UniqueKeys(totals: Totals) {
    forall i, j :: 0 <= i < j < |totals| ==> totals[i].0 != totals[j].0
  }

  /** The value stored under `k`, zero when absent. */
  function Lookup(totals: Totals, k: string): int {
    if totals == [] then 0
    else if totals[0].0 == k then totals[0].1
    else Lookup(totals[1..], k)
  }

  function Total(totals: Totals): int {
    if totals == [] then 0 else totals[0].1 + Total(totals[1..])
  }

  /** `if (!categoryTotals[cat]) categoryTotals[cat] = 0; categoryTotals[cat] += v`. */
  function AddTo(totals: Totals, k: string, v: int): (r: Totals)
    requires UniqueKeys(totals)
    ensures UniqueKeys(r)
    ensures Keys(r) == Keys(totals) + {k}
    ensures forall c :: Lookup(r, c) == Lookup(totals, c) + (if c == k then v else 0)
    ensures Total(r) == Total(totals) + v
    ensures |r| <= |totals| + 1
  {
    if totals == [] then
      LookupSingle(k, v);
      [(k, v)]
    else if totals[0].0 == k then
      AddToExisting(totals, k, v);
      [(k, totals[0].1 + v)] + totals[1..]
    else
      var rest := AddTo(totals[1..], k, v);
      AddToLater(totals, k, v, rest);
      [totals[0]] + rest
  }

  lemma LookupSingle(k: string, v: int)
    ensures forall c :: Lookup([(k, v)], c) == (if c == k then v else 0)
    ensures Keys([(k, v)]) == {k} && Total([(k, v)]) == v
  {
    assert [(k, v)][1..] == [];
    assert [(k, v)][0].0 == k;
  }

  /** The category is already the first entry: its value grows in place. */
  lemma AddToExisting(totals: Totals, k: string, v: int)
    requires UniqueKeys(totals) && totals != [] && totals[0].0 == k
    ensures var r := [(k, totals[0].1 + v)] + totals[1..];
      && UniqueKeys(r)
      && Keys(r) == Keys(totals) + {k}
      && (forall c :: Lookup(r, c) == Lookup(totals, c) + (if c == k then v else 0))
      && Total(r) == Total(totals) + v
  {
    KeysCons(totals[0], totals[1..]);
    KeysCons((k, totals[0].1 + v), totals[1..]);
    assert k !in Keys(totals[1..]);
    LookupAbsent(totals[1..], k);
  }

  /** The category is not the first entry: the first entry stays ahead of
      the updated rest. */
  lemma AddToLater(totals: Totals, k: string, v: int, rest: Totals)
    requires UniqueKeys(totals) && totals != [] && totals[0].0 != k
    requires UniqueKeys(rest)
    requires Keys(rest) == Keys(totals[1..]) + {k}
    requires forall c :: Lookup(rest, c) == Lookup(totals[1..], c) + (if c == k then v else 0)
    requires Total(rest) == Total(totals[1..]) + v
    ensures var r := [totals[0]] + rest;
      && UniqueKeys(r)
      && Keys(r) == Keys(totals) + {k}
      && (forall c :: Lookup(r, c) == Lookup(totals, c) + (if c == k then v else 0))
      && Total(r) == Total(totals) + v
  {
    KeysCons(totals[0], totals[1..]);
    KeysCons(totals[0], rest);
    KeysCons(totals[0], totals[1..]);
    assert totals[0].0 !in Keys(totals[1..]);
    ConsUnique(totals[0], rest);
  }

  /** Putting a key not yet present in front keeps the keys unique. */
  lemma ConsUnique(p: (string, int), rest: Totals)
    requires UniqueKeys(rest) && p.0 !in Keys(rest)
    ensures UniqueKeys([p] + rest)
  {
    var r := [p] + rest;
    forall i, j | 0 <= i < j < |r| ensures r[i].0 != r[j].0 {
      assert r[j] == rest[j - 1];
      if i == 0 {
        assert r[j].0 in Keys(rest);
      } else {
        assert r[i] == rest[i - 1];
      }
    }
  }

  lemma KeysCons(p: (string, int), t: Totals)
    ensures Keys([p] + t) == {p.0} + Keys(t)
    ensures t == ([p] + t)[1..]
  {
    var u := [p] + t;
    assert u[1..] == t;
    forall c | c in Keys(t) ensures c in Keys(u) {
      var i :| 0 <= i < |t| && t[i].0 == c;
      assert u[i + 1] == t[i];
    }
    assert u[0] == p;
  }

  lemma {:induction false} LookupAbsent(totals: Totals, k: string)
    requires k !in Keys(totals)
    ensures Lookup(totals, k) == 0
  {
    if totals != [] {
      assert totals[0].0 in Keys(totals);
      assert Keys(totals[1..]) <= Keys(totals);
      LookupAbsent(totals[1..], k);
    }
  }

  /** What transaction `t` contributes to category `k`. */
  function SpentOn(k: string, t: Transaction): int {
    if CategoryOf(t) == k then ExpenseOf(t) else 0
  }

  /** Some expense in `txs` is filed under `k`. */
  predicate Contributes(txs: seq<Transaction>, k: string) {
    exists i :: 0 <= i < |txs| && txs[i].amount < 0 && CategoryOf(txs[i]) == k
  }

  /** The `forEach` over the expenses, continuing from `acc`. */
  function CategoryTotalsFrom(acc: Totals, txs: seq<Transaction>): (r: Totals)
    requires UniqueKeys(acc)
    decreases |txs|
    ensures UniqueKeys(r)
    ensures forall k :: k in Keys(r) <==> k in Keys(acc) || Contributes(txs, k)
    ensures forall k :: Lookup(r, k) == Lookup(acc, k) + SumOf(txs, t => SpentOn(k, t))
    ensures Total(r) == Total(acc) + SumOf(txs, ExpenseOf)
  {
    if txs == [] then acc
    else
      var t := txs[0];
      var next := if t.amount < 0 then AddTo(acc, CategoryOf(t), -t.amount) else acc;
      var r := CategoryTotalsFrom(next, txs[1..]);
      ContributesCons(txs);
      r
  }

  lemma ContributesCons(txs: seq<Transaction>)
    requires txs != []
    ensures forall k :: Contributes(txs, k) <==>
      (txs[0].amount < 0 && CategoryOf(txs[0]) == k) || Contributes(txs[1..], k)
  {
    var t := txs[0];
    forall k ensures Contributes(txs, k) ==> (t.amount < 0 && CategoryOf(t) == k) || Contributes(txs[1..], k) {
      if Contributes(txs, k) {
        var i :| 0 <= i < |txs| && txs[i].amount < 0 && CategoryOf(txs[i]) == k;
        if i > 0 {
          assert txs[1..][i - 1] == txs[i];
        }
      }
    }
    forall k | Contributes(txs[1..], k) ensures Contributes(txs, k) {
      var i :| 0 <= i < |txs[1..]| && txs[1..][i].amount < 0 && CategoryOf(txs[1..][i]) == k;
      assert txs[i + 1] == txs[1..][i];
    }
  }

  /** Spend by category (`initDashboardCharts`, `initAnalyticsCharts`): one
      entry per category that has at least one expense, holding the sum of
      that category's expense magnitudes; the entries add up to total spend. */
  function CategoryTotals(txs: seq<Transaction>): (r: Totals)
    ensures UniqueKeys(r)
    ensures forall k :: k in Keys(r) <==> Contributes(txs, k)
    ensures forall k :: Lookup(r, k) == SumOf(txs, t => SpentOn(k, t))
    ensures Total(r) == SumOf(txs, ExpenseOf)
  {
    CategoryTotalsFrom([], txs)
  }

  /** Every stored total is positive: no category appears with nothing spent. */
  lemma CategoryTotalsPositive(txs: seq<Transaction>, k: string)
    requires k in Keys(CategoryTotals(txs))
    ensures Lookup(CategoryTotals(txs), k) > 0
  {
    var i :| 0 <= i < |txs| && txs[i].amount < 0 && CategoryOf(txs[i]) == k;
    SpentOnPositive(txs, k, i);
  }

  lemma {:induction false} SpentOnPositive(txs: seq<Transaction>, k: string, i: nat)
    requires i < |txs| && txs[i].amount < 0 && CategoryOf(txs[i]) == k
    ensures SumOf(txs, t => SpentOn(k, t)) > 0
  {
    if i == 0 {
      SumOfNonNegative(txs[1..], t => SpentOn(k, t));
    } else {
      assert txs[1..][i - 1] == txs[i];
      SpentOnPositive(txs[1..], k, i - 1);
    }
  }

  // ---------------------------------------------------------------------
  // Six-month trend
  // ---------------------------------------------------------------------

  datatype Bucket = Bucket(income: int, expense: int)

  /** How many months before `current` the month `m` is, 0..11. The source
      adds 12 before taking `%`, so its operand is never negative and
      JavaScript's `%` agrees with Dafny's. */
  function MonthsBack(current: MonthIndex, m: MonthIndex): int {
    (current - m + 12) % 12
  }

  /** `5 - (currentMonth - month + 12) % 12`: bucket 5 is the current month. */
  function BucketIndex(current: MonthIndex, m: MonthIndex): int {
    5 - MonthsBack(current, m)
  }

  predicate InWindow(current: MonthIndex, m: MonthIndex) {
    0 <= BucketIndex(current, m) < 6
  }

  /** The month `k` months before `current` falls in bucket `5 - k`, for
      `k` in 0..5: the window is the current month and the five before it. */
  lemma MonthsBackBucket(current: MonthIndex, k: int)
    requires 0 <= k < 6
    ensures var m := (current - k + 12) % 12; BucketIndex(current, m) == 5 - k
  {
  }

  /** A month is in the window exactly when it is at most five months back. */
  lemma InWindowIff(current: MonthIndex, m: MonthIndex)
    ensures InWindow(current, m) <==> MonthsBack(current, m) <= 5
  {
  }

  /** One transaction's effect on the buckets (`amount > 0` is income,
      anything else adds its magnitude to expense). */
  function AddToBuckets(buckets: seq<Bucket>, current: MonthIndex, m: MonthIndex, t: Transaction): (r: seq<Bucket>)
    requires |buckets| == 6
    ensures |r| == 6
  {
    var idx := BucketIndex(current, m);
    if 0 <= idx < 6 then
      if t.amount > 0 then buckets[idx := Bucket(buckets[idx].income + t.amount, buckets[idx].expense)]
      else buckets[idx := Bucket(buckets[idx].income, buckets[idx].expense + Abs(t.amount))]
    else buckets
  }

  /** Income transaction `t` adds to bucket `b`. */
  function IncomeTo(current: MonthIndex, resolve: Transaction -> MonthIndex, b: int, t: Transaction): int {
    if BucketIndex(current, resolve(t)) == b && t.amount > 0 then t.amount else 0
  }

  /** Expense transaction `t` adds to bucket `b`. */
  function ExpenseTo(current: MonthIndex, resolve: Transaction -> MonthIndex, b: int, t: Transaction): int {
    if BucketIndex(current, resolve(t)) == b && t.amount <= 0 then Abs(t.amount) else 0
  }

  /** Income inside the six-month window. */
  function WindowIncome(current: MonthIndex, resolve: Transaction -> MonthIndex, t: Transaction): int {
    if InWindow(current, resolve(t)) && t.amount > 0 then t.amount else 0
  }

  function WindowExpense(current: MonthIndex, resolve: Transaction -> MonthIndex, t: Transaction): int {
    if InWindow(current, resolve(t)) && t.amount <= 0 then Abs(t.amount) else 0
  }

  function IncomeSum(buckets: seq<Bucket>): int {
    if buckets == [] then 0 else buckets[0].income + IncomeSum(buckets[1..])
  }

  function ExpenseSum(buckets: seq<Bucket>): int {
    if buckets == [] then 0 else buckets[0].expense + ExpenseSum(buckets[1..])
  }

  lemma {:induction false} SumsUpdate(buckets: seq<Bucket>, i: nat, b: Bucket)
    requires i < |buckets|
    ensures IncomeSum(buckets[i := b]) == IncomeSum(buckets) - buckets[i].income + b.income
    ensures ExpenseSum(buckets[i := b]) == ExpenseSum(buckets) - buckets[i].expense + b.expense
  {
    if i > 0 {
      assert buckets[i := b][1..] == buckets[1..][i - 1 := b];
      SumsUpdate(buckets[1..], i - 1, b);
    } else {
      assert buckets[i := b][1..] == buckets[1..];
    }
  }

  /** Adding one transaction changes each bucket by that transaction's share
      and the bucket totals by its in-window share. */
  lemma AddToBucketsEffect(acc: seq<Bucket>, current: MonthIndex, resolve: Transaction -> MonthIndex, t: Transaction)
    requires |acc| == 6
    ensures var r := AddToBuckets(acc, current, resolve(t), t);
      (forall b :: 0 <= b < 6 ==>
        r[b].income == acc[b].income + IncomeTo(current, resolve, b, t)
        && r[b].expense == acc[b].expense + ExpenseTo(current, resolve, b, t))
      && IncomeSum(r) == IncomeSum(acc) + WindowIncome(current, resolve, t)
      && ExpenseSum(r) == ExpenseSum(acc) + WindowExpense(current, resolve, t)
  {
    var idx := BucketIndex(current, resolve(t));
    if 0 <= idx < 6 {
      SumsUpdate(acc, idx, AddToBuckets(acc, current, resolve(t), t)[idx]);
    }
  }

  lemma {:induction false} ZeroSums(buckets: seq<Bucket>)
    requires forall i :: 0 <= i < |buckets| ==> buckets[i] == Bucket(0, 0)
    ensures IncomeSum(buckets) == 0 && ExpenseSum(buckets) == 0
  {
    if buckets != [] {
      ZeroSums(buckets[1..]);
    }
  }

  /** The `forEach` over the transactions, continuing from `acc`. */
  function TrendFrom(acc: seq<Bucket>, txs: seq<Transaction>, current: MonthIndex, resolve: Transaction -> MonthIndex): (r: seq<Bucket>)
    requires |acc| == 6
    decreases |txs|
    ensures |r| == 6
    ensures forall b :: 0 <= b < 6 ==>
      r[b].income == acc[b].income + SumOf(txs, t => IncomeTo(current, resolve, b, t))
      && r[b].expense == acc[b].expense + SumOf(txs, t => ExpenseTo(current, resolve, b, t))
    ensures IncomeSum(r) == IncomeSum(acc) + SumOf(txs, t => WindowIncome(current, resolve, t))
    ensures ExpenseSum(r) == ExpenseSum(acc) + SumOf(txs, t => WindowExpense(current, resolve, t))
  {
    if txs == [] then acc
    else
      var t := txs[0];
      var next := AddToBuckets(acc, current, resolve(t), t);
      AddToBucketsEffect(acc, current, resolve, t);
      TrendFrom(next, txs[1..], current, resolve)
  }

  /** The trend chart's six buckets, oldest month first. Each bucket holds
      the income and the expense magnitude of the transactions resolved to
      its month; transactions outside the window are dropped, so the
      buckets together hold exactly the window's income and expense. */
  function Trend(txs: seq<Transaction>, current: MonthIndex, resolve: Transaction -> MonthIndex): (r: seq<Bucket>)
    ensures |r| == 6
    ensures forall b :: 0 <= b < 6 ==>
      r[b].income == SumOf(txs, t => IncomeTo(current, resolve, b, t))
      && r[b].expense == SumOf(txs, t => ExpenseTo(current, resolve, b, t))
    ensures IncomeSum(r) == SumOf(txs, t => WindowIncome(current, resolve, t))
    ensures ExpenseSum(r) == SumOf(txs, t => WindowExpense(current, resolve, t))
  {
    var zero := seq(6, _ => Bucket(0, 0));
    ZeroSums(zero);
    TrendFrom(zero, txs, current, resolve)
  }
}
