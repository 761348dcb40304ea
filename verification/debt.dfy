/** The debt payoff calculator (`renderDebt`) and the twelve-month balance
    projection drawn by `initDebtChart`.

    Balances are integer cents; the minimum payment is 2% of the total debt,
    which is not a whole number of cents, so payments, months and interest
    are computed over `real`. The model is the source's own linear
    amortisation (months = debt / payment rounded up), not compound interest. */
module Debt {
  import opened Wrappers
  import opened Entities
  import opened Seqs

  datatype Strategy = Avalanche | Snowball

  /** The fixed minimum-payment rate: 2% of the total debt per month. */
  const MinPaymentRate: real := 0.02

  // ---------------------------------------------------------------------
  // Selecting and ordering the debts
  // ---------------------------------------------------------------------

  /** `state.accounts.filter(a => a.type === 'loan' || a.type === 'credit')`. */
  function DebtAccounts(accounts: seq<Account>): (r: seq<Account>)
    ensures forall a {:trigger a in r} :: a in r <==> a in accounts && IsDebt(a)
  {
    Filter(accounts, IsDebt)
  }

  /** `a.apr || 0`: a missing APR counts as zero. */
  function AprOrZero(a: Account): int {
    a.apr.GetOr(0)
  }

  /** Sort keys, ascending: avalanche puts the highest APR first, snowball
      the smallest balance magnitude first. */
  function AvalancheKey(a: Account): int {
    -AprOrZero(a)
  }

  function SnowballKey(a: Account): int {
    Abs(a.balance)
  }

  function KeyOf(strategy: Strategy): Account -> int {
    match strategy
    case Avalanche => AvalancheKey
    case Snowball => SnowballKey
  }

  predicate SortedBy<T>(s: seq<T>, key: T -> int) {
    forall i, j :: 0 <= i < j < |s| ==> key(s[i]) <= key(s[j])
  }

  /** The elements whose key is `k`, in order. A sort is stable exactly when
      it leaves this subsequence unchanged for every `k`. */
  function WithKey<T>(s: seq<T>, key: T -> int, k: int): seq<T> {
    if s == [] then []
    else (if key(s[0]) == k then [s[0]] else []) + WithKey(s[1..], key, k)
  }

  /** Puts `x` in front of the first element whose key is not smaller, so
      `x` lands before every element with an equal key. */
  function Insert<T>(x: T, s: seq<T>, key: T -> int): (r: seq<T>)
    requires SortedBy(s, key)
    ensures SortedBy(r, key)
    ensures multiset(r) == multiset(s) + multiset{x}
    ensures forall k :: WithKey(r, key, k) == (if key(x) == k then [x] else []) + WithKey(s, key, k)
  {
    if s == [] || key(x) <= key(s[0]) then
      assert forall k :: WithKey([x] + s, key, k) == (if key(x) == k then [x] else []) + WithKey(s, key, k) by {
        forall k { WithKeyCons(x, s, key, k); }
      }
      [x] + s
    else
      var rest := Insert(x, s[1..], key);
      InsertBehind(x, s, key, rest);
      [s[0]] + rest
  }

  lemma WithKeyCons<T>(a: T, t: seq<T>, key: T -> int, k: int)
    ensures WithKey([a] + t, key, k) == (if key(a) == k then [a] else []) + WithKey(t, key, k)
  {
    assert ([a] + t)[1..] == t;
  }

  /** The step of `Insert` that keeps the head and inserts further on. */
  lemma InsertBehind<T>(x: T, s: seq<T>, key: T -> int, rest: seq<T>)
    requires SortedBy(s, key) && s != [] && key(s[0]) < key(x)
    requires SortedBy(rest, key)
    requires multiset(rest) == multiset(s[1..]) + multiset{x}
    requires forall k :: WithKey(rest, key, k) == (if key(x) == k then [x] else []) + WithKey(s[1..], key, k)
    ensures SortedBy([s[0]] + rest, key)
    ensures multiset([s[0]] + rest) == multiset(s) + multiset{x}
    ensures forall k :: WithKey([s[0]] + rest, key, k) == (if key(x) == k then [x] else []) + WithKey(s, key, k)
  {
    assert multiset(s) == multiset{s[0]} + multiset(s[1..]) by {
      assert s == [s[0]] + s[1..];
    }
    HeadBelowRest(x, s, key, rest);
    forall k ensures WithKey([s[0]] + rest, key, k) == (if key(x) == k then [x] else []) + WithKey(s, key, k) {
      WithKeyBehind(x, s, key, rest, k);
    }
  }

  lemma WithKeyBehind<T>(x: T, s: seq<T>, key: T -> int, rest: seq<T>, k: int)
    requires s != [] && key(s[0]) < key(x)
    requires WithKey(rest, key, k) == (if key(x) == k then [x] else []) + WithKey(s[1..], key, k)
    ensures WithKey([s[0]] + rest, key, k) == (if key(x) == k then [x] else []) + WithKey(s, key, k)
  {
    WithKeyCons(s[0], rest, key, k);
    assert WithKey(s, key, k) == (if key(s[0]) == k then [s[0]] else []) + WithKey(s[1..], key, k);
  }

  lemma HeadBelowRest<T>(x: T, s: seq<T>, key: T -> int, rest: seq<T>)
    requires SortedBy(s, key) && s != [] && key(s[0]) < key(x)
    requires SortedBy(rest, key)
    requires multiset(rest) == multiset(s[1..]) + multiset{x}
    ensures SortedBy([s[0]] + rest, key)
  {
    forall i | 0 <= i < |rest| ensures key(s[0]) <= key(rest[i]) {
      assert rest[i] in multiset(rest);
      if rest[i] != x {
        assert rest[i] in multiset(s[1..]);
        var j :| 0 <= j < |s[1..]| && s[1..][j] == rest[i];
        assert s[j + 1] == rest[i];
      }
    }
    var r := [s[0]] + rest;
    forall i, j | 0 <= i < j < |r| ensures key(r[i]) <= key(r[j]) {
      assert r[j] == rest[j - 1];
      if i > 0 {
        assert r[i] == rest[i - 1];
      }
    }
  }

  /** A stable sort by ascending key: the behaviour of the engine's
      `Array.prototype.sort`, which is stable, with a comparator that
      subtracts the keys. */
  function SortBy<T>(s: seq<T>, key: T -> int): (r: seq<T>)
    ensures SortedBy(r, key)
    ensures multiset(r) == multiset(s)
    ensures forall k :: WithKey(r, key, k) == WithKey(s, key, k)
  {
    if s == [] then []
    else
      assert s == [s[0]] + s[1..];
      Insert(s[0], SortBy(s[1..], key), key)
  }

  /** The priority order of the debts shown in the liabilities list: a
      permutation of the credit and loan accounts, highest APR first
      (avalanche) or smallest balance first (snowball), ties in their
      original order. */
  function PriorityOrder(accounts: seq<Account>, strategy: Strategy): (r: seq<Account>)
    ensures multiset(r) == multiset(DebtAccounts(accounts))
    ensures strategy == Avalanche ==>
      forall i, j :: 0 <= i < j < |r| ==> AprOrZero(r[i]) >= AprOrZero(r[j])
    ensures strategy == Snowball ==>
      forall i, j :: 0 <= i < j < |r| ==> Abs(r[i].balance) <= Abs(r[j].balance)
    ensures forall k :: WithKey(r, KeyOf(strategy), k) == WithKey(DebtAccounts(accounts), KeyOf(strategy), k)
  {
    var r := SortBy(DebtAccounts(accounts), KeyOf(strategy));
    assert forall i, j :: 0 <= i < j < |r| ==> KeyOf(strategy)(r[i]) <= KeyOf(strategy)(r[j]);
    r
  }

  /** Tie-keeping spelled out: two debts with the same key keep their
      relative order. `WithKey` lists them in order of appearance. */
  lemma {:induction false} WithKeyInOrder<T>(s: seq<T>, key: T -> int, i: int, j: int)
    requires 0 <= i < j < |s| && key(s[i]) == key(s[j])
    ensures exists p, q :: (0 <= p < q < |WithKey(s, key, key(s[i]))|
      && WithKey(s, key, key(s[i]))[p] == s[i] && WithKey(s, key, key(s[i]))[q] == s[j])
  {
    var k := key(s[i]);
    if i == 0 {
      var w := WithKey(s[1..], key, k);
      assert s[j] == s[1..][j - 1];
      WithKeyHas(s[1..], key, j - 1);
      var q :| 0 <= q < |w| && w[q] == s[j];
      assert WithKey(s, key, k) == [s[0]] + w;
      assert WithKey(s, key, k)[0] == s[i] && WithKey(s, key, k)[q + 1] == s[j];
    } else {
      assert s[i] == s[1..][i - 1] && s[j] == s[1..][j - 1];
      WithKeyInOrder(s[1..], key, i - 1, j - 1);
      var w := WithKey(s[1..], key, k);
      var p, q :| 0 <= p < q < |w| && w[p] == s[i] && w[q] == s[j];
      var h := if key(s[0]) == k then [s[0]] else [];
      assert WithKey(s, key, k) == h + w;
      assert WithKey(s, key, k)[p + |h|] == s[i] && WithKey(s, key, k)[q + |h|] == s[j];
    }
  }

  lemma {:induction false} WithKeyHas<T>(s: seq<T>, key: T -> int, j: int)
    requires 0 <= j < |s|
    ensures s[j] in WithKey(s, key, key(s[j]))
  {
    if j > 0 {
      assert s[j] == s[1..][j - 1];
      WithKeyHas(s[1..], key, j - 1);
    }
  }

  // ---------------------------------------------------------------------
  // Payoff arithmetic
  // ---------------------------------------------------------------------

  /** `Math.ceil`. */
  function Ceil(x: real): (r: int)
    ensures x <= r as real < x + 1.0
  {
    var f := x.Floor;
    if f as real == x then f else f + 1
  }

  /** `Math.ceil` is monotone. */
  lemma CeilMonotone(x: real, y: real)
    requires x <= y
    ensures Ceil(x) <= Ceil(y)
  {
  }

  /** `Math.abs(debts.reduce((acc, a) => acc + a.balance, 0))`, in cents. */
  function TotalDebt(accounts: seq<Account>): (r: nat)
    ensures DebtAccounts(accounts) == [] ==> r == 0
    ensures (forall a :: a in accounts && IsDebt(a) ==> a.balance <= 0) ==>
      r == SumOf(DebtAccounts(accounts), SnowballKey)
  {
    var debts := DebtAccounts(accounts);
    assert (forall a :: a in accounts && IsDebt(a) ==> a.balance <= 0) ==>
      Abs(SumOf(debts, Balance)) == SumOf(debts, SnowballKey)
    by {
      if forall a :: a in accounts && IsDebt(a) ==> a.balance <= 0 {
        assert forall i :: 0 <= i < |debts| ==> debts[i] in debts;
        TotalDebtIsSumOwed(debts);
      }
    }
    Abs(SumOf(debts, Balance))
  }

  /** Under the sign convention that debts are stored as non-positive
      balances, the total is the sum of the amounts owed. */
  lemma {:induction false} TotalDebtIsSumOwed(debts: seq<Account>)
    requires forall i :: 0 <= i < |debts| ==> debts[i].balance <= 0
    ensures Abs(SumOf(debts, Balance)) == SumOf(debts, SnowballKey)
  {
    SumNonPositive(debts);
  }

  lemma {:induction false} SumNonPositive(debts: seq<Account>)
    requires forall i :: 0 <= i < |debts| ==> debts[i].balance <= 0
    ensures SumOf(debts, Balance) <= 0
    ensures -SumOf(debts, Balance) == SumOf(debts, SnowballKey)
  {
    if debts != [] {
      SumNonPositive(debts[1..]);
    }
  }

  function MinPayment(totalDebt: nat): (r: real)
    ensures r >= 0.0 && (r == 0.0 <==> totalDebt == 0)
  {
    totalDebt as real * MinPaymentRate
  }

  /** Months to pay `debt` off at `monthly` per month, and the "interest",
      the overshoot of the last payment. */
  datatype Projection = Projection(months: int, interest: real)

  /** Scaling a ceiling back up: paying `Ceil(d / m)` instalments of `m`
      covers `d`, with less than one instalment to spare. */
  lemma CeilCovers(d: real, m: real)
    requires d >= 0.0 && m > 0.0
    ensures d <= (Ceil(d / m) as real) * m
    ensures (Ceil(d / m) as real) * m < d + m
  {
    var q := d / m;
    var c := Ceil(q) as real;
    CoverBounds(d, m, q, c);
  }

  lemma CoverBounds(d: real, m: real, q: real, c: real)
    requires m > 0.0 && q * m == d && q <= c < q + 1.0
    ensures d <= c * m < d + m
  {
    MulMonotone(q, c, m);
    MulStrict(c, q + 1.0, m);
    Distribute(q, m);
  }

  lemma Distribute(q: real, m: real)
    ensures (q + 1.0) * m == q * m + m
  {
  }

  lemma MulMonotone(a: real, b: real, m: real)
    requires a <= b && m > 0.0
    ensures a * m <= b * m
  {
  }

  lemma MulStrict(a: real, b: real, m: real)
    requires a < b && m > 0.0
    ensures a * m < b * m
  {
  }

  /** The projection for a positive debt, or for no debt at all, which
      needs no months and costs nothing. */
  function Project(debt: nat, monthly: real): (r: Projection)
    requires monthly > 0.0 || debt == 0
    ensures debt == 0 ==> r == Projection(0, 0.0)
    ensures r.months >= 0
    ensures r.months as real * monthly >= debt as real
    ensures debt > 0 ==> (r.months - 1) as real * monthly < debt as real
    ensures r.interest == r.months as real * monthly - debt as real
    ensures 0.0 <= r.interest && (debt > 0 ==> r.interest < monthly)
  {
    if debt == 0 then Projection(0, 0.0)
    else
      var months := Ceil(debt as real / monthly);
      CeilCovers(debt as real, monthly);
      Projection(months, months as real * monthly - debt as real)
  }

  /** A larger monthly payment never takes more months. */
  lemma {:induction false} MorePaymentFewerMonths(debt: nat, m1: real, m2: real)
    requires m1 <= m2 && (m1 > 0.0 || debt == 0)
    ensures Project(debt, m2).months <= Project(debt, m1).months
  {
    if debt > 0 {
      var d := debt as real;
      assert d / m2 <= d / m1 by {
        assert (d / m2) * m2 == d && (d / m1) * m1 == d;
        if d / m2 > d / m1 {
          MulStrict(d / m1, d / m2, m2);
          MulMonotone(m1, m2, d / m1);
        }
      }
      CeilMonotone(d / m2, d / m1);
    }
  }

  /** The figures of the calculator panel. The list of debts beside them is
      `PriorityOrder`, which is all the strategy changes. */
  datatype PayoffPlan = PayoffPlan(
    totalDebt: nat,
    minPayment: real,
    monthly: real,
    plan: Projection,
    baseline: Projection,
    interestSaved: real)

  /** `renderDebt` with `extra` the slider's extra monthly payment in cents.
      With no debt at all the plan is zero months and zero interest. */
  function Plan(accounts: seq<Account>, extra: nat): (r: PayoffPlan)
    ensures r.totalDebt == TotalDebt(accounts)
    ensures r.minPayment == r.totalDebt as real * MinPaymentRate
    ensures r.monthly == r.minPayment + extra as real
    ensures 0.0 <= r.plan.interest && (r.totalDebt > 0 ==> r.plan.interest < r.monthly)
    ensures r.plan.months <= r.baseline.months
    ensures r.interestSaved >= 0.0
    ensures r.interestSaved >= r.baseline.interest - r.plan.interest
    ensures extra == 0 ==> r.interestSaved == 0.0 && r.plan == r.baseline
    ensures r.plan == Project(r.totalDebt, r.monthly)
    ensures r.baseline == Project(r.totalDebt, r.minPayment)
    ensures r.interestSaved == Max0(r.baseline.interest - r.plan.interest)
  {
    var total := TotalDebt(accounts);
    var minimum := MinPayment(total);
    var monthly := minimum + extra as real;
    MorePaymentFewerMonths(total, minimum, monthly);
    var plan := Project(total, monthly);
    var baseline := Project(total, minimum);
    var saved := baseline.interest - plan.interest;
    PayoffPlan(total, minimum, monthly, plan, baseline, Max0(saved))
  }

  // ---------------------------------------------------------------------
  // The source's arithmetic with no debts (see Findings in README)
  // ---------------------------------------------------------------------

  /** `Math.ceil(debt / monthly)` and `months * monthly - debt` exactly as
      written; `None` is the `NaN` that `0 / 0` produces. */
  function ProjectAsWritten(debt: nat, monthly: real): (r: Option<Projection>)
    requires monthly >= 0.0
    requires monthly == 0.0 ==> debt == 0
    ensures r.None? <==> monthly == 0.0
  {
    if monthly == 0.0 then None
    else Some(Projection(Ceil(debt as real / monthly), Ceil(debt as real / monthly) as real * monthly - debt as real))
  }

  /** `interestSaved` as written: `Math.max(0, NaN)` is `NaN` (`None`). */
  function InterestSavedAsWritten(accounts: seq<Account>, extra: nat): (r: Option<real>)
    ensures r.Some? ==> r.value >= 0.0
  {
    var total := TotalDebt(accounts);
    var minimum := MinPayment(total);
    var monthly := minimum + extra as real;
    match (ProjectAsWritten(total, monthly), ProjectAsWritten(total, minimum))
    case (Some(p), Some(b)) =>
      var saved := b.interest - p.interest;
      Some(if saved > 0.0 then saved else 0.0)
    case _ => None
  }

  /** With no debts the source's comparison divides zero by zero, and the
      "interest saved" figure is `NaN` whatever the extra payment. */
  lemma NoDebtSavedIsNaN(accounts: seq<Account>, extra: nat)
    requires DebtAccounts(accounts) == []
    ensures InterestSavedAsWritten(accounts, extra).None?
  {
    assert SumOf(DebtAccounts(accounts), Balance) == 0;
  }

  /** Whenever there is debt, the written arithmetic and `Plan` agree. */
  lemma AsWrittenAgreesWithPlan(accounts: seq<Account>, extra: nat)
    requires TotalDebt(accounts) > 0
    ensures InterestSavedAsWritten(accounts, extra) == Some(Plan(accounts, extra).interestSaved)
  {
  }

  // ---------------------------------------------------------------------
  // The twelve-month chart
  // ---------------------------------------------------------------------

  function Max0(x: real): real {
    if x > 0.0 then x else 0.0
  }

  /** `n` chart values starting at `remaining`, each the previous one less
      `monthly` and never below zero. */
  function Countdown(remaining: real, monthly: real, n: nat): (r: seq<real>)
    decreases n
    ensures |r| == n
    ensures n > 0 ==> r[0] == remaining
    ensures forall i, j :: 0 <= i && j == i + 1 && j < n ==> r[j] == Max0(r[i] - monthly)
    ensures remaining >= 0.0 ==> forall i :: 0 <= i < n ==> r[i] >= 0.0
    ensures remaining >= 0.0 && monthly >= 0.0 ==> forall i, j :: 0 <= i <= j < n ==> r[j] <= r[i]
  {
    if n == 0 then []
    else
      var rest := Countdown(Max0(remaining - monthly), monthly, n - 1);
      var r := [remaining] + rest;
      assert forall i :: 1 <= i < n ==> r[i] == rest[i - 1];
      r
  }

  /** What `i` monthly payments of `monthly` add up to. */
  function Paid(i: nat, monthly: real): real {
    if i == 0 then 0.0 else Paid(i - 1, monthly) + monthly
  }

  lemma {:induction false} PaidIsProduct(i: nat, monthly: real)
    ensures Paid(i, monthly) == i as real * monthly
  {
    if i > 0 {
      PaidIsProduct(i - 1, monthly);
      Distribute((i - 1) as real, monthly);
    }
  }

  /** Closed form of the countdown: entry `i` is the starting debt less `i`
      payments, floored at zero. */
  lemma {:induction false} CountdownClosedForm(start: real, monthly: real, n: nat, i: nat)
    requires start >= 0.0 && monthly >= 0.0 && i < n
    ensures Countdown(start, monthly, n)[i] == Max0(start - i as real * monthly)
  {
    CountdownPaid(start, monthly, n, i);
    PaidIsProduct(i, monthly);
  }

  lemma {:induction false} CountdownPaid(start: real, monthly: real, n: nat, i: nat)
    requires start >= 0.0 && monthly >= 0.0 && i < n
    ensures Countdown(start, monthly, n)[i] == Max0(start - Paid(i, monthly))
    decreases i
  {
    if i > 0 {
      CountdownPaid(Max0(start - monthly), monthly, n - 1, i - 1);
      CountdownShift(start, monthly, n, i);
      PaidNonNegative(i - 1, monthly);
      Max0Twice(start, monthly, Paid(i - 1, monthly));
    }
  }

  lemma {:induction false} PaidNonNegative(i: nat, monthly: real)
    requires monthly >= 0.0
    ensures Paid(i, monthly) >= 0.0
  {
    if i > 0 {
      PaidNonNegative(i - 1, monthly);
    }
  }

  lemma CountdownShift(start: real, monthly: real, n: nat, i: nat)
    requires 0 < i < n
    ensures Countdown(start, monthly, n)[i] == Countdown(Max0(start - monthly), monthly, n - 1)[i - 1]
  {
  }

  lemma Max0Twice(x: real, m: real, t: real)
    requires m >= 0.0 && t >= 0.0
    ensures Max0(Max0(x - m) - t) == Max0(x - (t + m))
  {
  }

  /** `initDebtChart`'s data: twelve monthly balances from the total debt. */
  function Trajectory(accounts: seq<Account>, extra: nat): (r: seq<real>)
    ensures |r| == 12
    ensures r[0] == TotalDebt(accounts) as real
    ensures forall i, j :: 0 <= i && j == i + 1 && j < 12 ==> r[j] == Max0(r[i] - Plan(accounts, extra).monthly)
    ensures forall i :: 0 <= i < 12 ==> r[i] >= 0.0
    ensures forall i, j :: 0 <= i <= j < 12 ==> r[j] <= r[i]
  {
    var total := TotalDebt(accounts);
    Countdown(total as real, MinPayment(total) + extra as real, 12)
  }
}
