/** Worked examples on the seed data of `generateData` (src/data.js): the six
    fixed accounts in cents and hundredths of a percent, and the figures the
    debt planner and goal tagging produce on them. */
module Fixtures {
  import opened Wrappers
  import opened Entities
  import opened Seqs
  import Debt
  import Tagging
  import Store

  const Checking1 := Account("a1", "Chase Total Checking", Checking, 425000, "Chase", "1234", None)
  const AmexGold := Account("a2", "Amex Gold", Credit, -85000, "American Express", "5678", Some(2499))
  const Vanguard := Account("a3", "Vanguard Index Fund", Investment, 13500000, "Vanguard", "9012", None)
  const CarLoan := Account("a4", "Car Loan", Loan, -1500000, "Wells Fargo", "3456", Some(549))
  const StudentLoan := Account("a5", "Student Loan", Loan, -200000, "Navient", "1111", Some(450))
  const VisaSignature := Account("a6", "Visa Signature", Credit, -300000, "Chase", "2222", Some(2200))

  const SeedAccounts: seq<Account> := [Checking1, AmexGold, Vanguard, CarLoan, StudentLoan, VisaSignature]

  /** Six accounts agreeing with the seed data on everything the planner
      reads: type, balance and APR. */
  predicate SeedLike(s: seq<Account>) {
    && |s| == 6
    && s[0].kind == Checking
    && s[1].kind == Credit && s[1].balance == -85000 && s[1].apr == Some(2499)
    && s[2].kind == Investment
    && s[3].kind == Loan && s[3].balance == -1500000 && s[3].apr == Some(549)
    && s[4].kind == Loan && s[4].balance == -200000 && s[4].apr == Some(450)
    && s[5].kind == Credit && s[5].balance == -300000 && s[5].apr == Some(2200)
  }

  lemma SeedAccountsAreSeedLike()
    ensures SeedLike(SeedAccounts)
  {
  }

  /** The planner works on the credit cards and loans, in account order. */
  lemma SeedDebts(s: seq<Account>)
    requires SeedLike(s)
    ensures Debt.DebtAccounts(s) == [s[1], s[3], s[4], s[5]]
  {
    SeedFilter(s);
    SixToFour(s);
  }

  lemma SeedFilter(s: seq<Account>)
    requires |s| == 6
    requires !IsDebt(s[0]) && IsDebt(s[1]) && !IsDebt(s[2])
    requires IsDebt(s[3]) && IsDebt(s[4]) && IsDebt(s[5])
    ensures Filter(s, IsDebt) == [s[1]] + s[3..]
  {
    var h, t := s[..3], s[3..];
    assert s == h + t;
    FilterAppend(h, t, IsDebt);
    FilterAll(t, IsDebt);
    HeadFilter(h);
  }

  lemma SixToFour(s: seq<Account>)
    requires |s| == 6
    ensures [s[1]] + s[3..] == [s[1], s[3], s[4], s[5]]
  {
  }

  /** Checking, credit, investment: only the credit card is kept. */
  lemma HeadFilter(h: seq<Account>)
    requires |h| == 3 && !IsDebt(h[0]) && IsDebt(h[1]) && !IsDebt(h[2])
    ensures Filter(h, IsDebt) == [h[1]]
  {
    assert h[1..][1..][1..] == [];
    assert Filter(h[1..][1..], IsDebt) == [];
    assert Filter(h[1..], IsDebt) == [h[1]];
  }

  lemma SumOfFour(d: seq<Account>)
    requires |d| == 4
    ensures SumOf(d, Balance) == d[0].balance + d[1].balance + d[2].balance + d[3].balance
  {
    var t1 := d[1..];
    var t2 := t1[1..];
    var t3 := t2[1..];
    assert t3[1..] == [];
    assert SumOf(t3, Balance) == d[3].balance;
    assert SumOf(t2, Balance) == d[2].balance + d[3].balance;
    assert SumOf(t1, Balance) == d[1].balance + d[2].balance + d[3].balance;
  }

  /** The four debts owe $20,850 in total. */
  lemma SeedTotalDebt(s: seq<Account>)
    requires SeedLike(s)
    ensures Debt.TotalDebt(s) == 2085000
  {
    SeedDebts(s);
    SumOfFour([s[1], s[3], s[4], s[5]]);
  }

  /** The minimum payment on the seed debts is $417. */
  lemma SeedMinPayment(s: seq<Account>)
    requires SeedLike(s)
    ensures Debt.Plan(s, 0).minPayment == 41700.0
  {
    SeedTotalDebt(s);
    var p := Debt.Plan(s, 0);
    assert p.totalDebt == 2085000;
    assert p.totalDebt as real == 2085000.0;
    assert 2085000.0 * Debt.MinPaymentRate == 41700.0;
  }

  /** Whatever the strategy, the priority order is a sorted arrangement of
      the four seed debts. */
  lemma SeedPriority(s: seq<Account>, strategy: Debt.Strategy)
    requires SeedLike(s)
    ensures multiset(Debt.PriorityOrder(s, strategy)) == multiset([s[1], s[3], s[4], s[5]])
    ensures Debt.SortedBy(Debt.PriorityOrder(s, strategy), Debt.KeyOf(strategy))
  {
    SeedDebts(s);
  }

  /** Avalanche pays the highest APR first: Amex 24.99%, Visa 22%, car loan
      5.49%, student loan 4.5%. */
  lemma SeedAvalancheOrder(s: seq<Account>)
    requires SeedLike(s)
    ensures Debt.PriorityOrder(s, Debt.Avalanche) == [s[1], s[5], s[3], s[4]]
  {
    SeedPriority(s, Debt.Avalanche);
    ArrangeFirstLastMiddle(Debt.PriorityOrder(s, Debt.Avalanche), Debt.AvalancheKey, s[1], s[3], s[4], s[5]);
  }

  /** Snowball pays the smallest balance first: $850, $2,000, $3,000, $15,000. */
  lemma SeedSnowballOrder(s: seq<Account>)
    requires SeedLike(s)
    ensures Debt.PriorityOrder(s, Debt.Snowball) == [s[1], s[4], s[5], s[3]]
  {
    SeedPriority(s, Debt.Snowball);
    ArrangeSecondLast(Debt.PriorityOrder(s, Debt.Snowball), Debt.SnowballKey, s[1], s[3], s[4], s[5]);
  }

  /** The sorted arrangement of `[p, q, u, v]` when `v` sorts second. */
  lemma ArrangeFirstLastMiddle(r: seq<Account>, key: Account -> int, p: Account, q: Account, u: Account, v: Account)
    requires multiset(r) == multiset([p, q, u, v]) && Debt.SortedBy(r, key)
    requires key(p) < key(v) < key(q) < key(u)
    ensures r == [p, v, q, u]
  {
    FourMembers(r, p, q, u, v);
    assert key(r[0]) <= key(r[1]) <= key(r[2]) <= key(r[3]);
    assert r == [r[0], r[1], r[2], r[3]];
    SortedFour(r[0], r[1], r[2], r[3], key, p, v, q, u);
  }

  /** The sorted arrangement of `[p, q, u, v]` when `q` sorts last. */
  lemma ArrangeSecondLast(r: seq<Account>, key: Account -> int, p: Account, q: Account, u: Account, v: Account)
    requires multiset(r) == multiset([p, q, u, v]) && Debt.SortedBy(r, key)
    requires key(p) < key(u) < key(v) < key(q)
    ensures r == [p, u, v, q]
  {
    FourMembers(r, p, q, u, v);
    assert key(r[0]) <= key(r[1]) <= key(r[2]) <= key(r[3]);
    assert r == [r[0], r[1], r[2], r[3]];
    SortedFour(r[0], r[1], r[2], r[3], key, p, u, v, q);
  }

  /** A permutation of four elements holds only those elements, and each of them. */
  lemma FourMembers(r: seq<Account>, a: Account, b: Account, c: Account, d: Account)
    requires multiset(r) == multiset([a, b, c, d])
    ensures |r| == 4
    ensures forall i :: 0 <= i < 4 ==> r[i] in [a, b, c, d]
    ensures a in r && b in r && c in r && d in r
  {
    var want := [a, b, c, d];
    assert |r| == |multiset(r)| == 4;
    forall i | 0 <= i < 4 ensures r[i] in want {
      assert r[i] in multiset(r);
    }
    forall i | 0 <= i < 4 ensures want[i] in r {
      assert want[i] in multiset(want);
    }
  }

  /** Four values in ascending key order drawn from four values with strictly
      ascending keys, covering all of them, are those values in that order. */
  lemma SortedFour(r0: Account, r1: Account, r2: Account, r3: Account, key: Account -> int,
                   a: Account, b: Account, c: Account, d: Account)
    requires key(r0) <= key(r1) <= key(r2) <= key(r3)
    requires key(a) < key(b) < key(c) < key(d)
    requires r0 in [a, b, c, d] && r1 in [a, b, c, d] && r2 in [a, b, c, d] && r3 in [a, b, c, d]
    requires a in [r0, r1, r2, r3] && b in [r0, r1, r2, r3]
    requires c in [r0, r1, r2, r3] && d in [r0, r1, r2, r3]
    ensures [r0, r1, r2, r3] == [a, b, c, d]
  {
  }

  /** $17,000 at $590 a month: 29 months, $110 paid beyond the balance. */
  lemma ProjectExample()
    ensures Debt.Project(1700000, 59000.0) == Debt.Projection(29, 11000.0)
  {
    var p := Debt.Project(1700000, 59000.0);
    assert (p.months - 1) as real * 59000.0 < 1700000.0;
    assert p.months as real * 59000.0 >= 1700000.0;
  }

  const Groceries := Transaction("1", "Whole Foods Market", "Today, 10:23 AM", -14550, "Groceries", "a2", "ShoppingBag", true, false)
  const EmergencyFund := Goal("g1", "Emergency Fund", 1000000, 650000, "Shield")
  const JapanTrip := Goal("g2", "Japan Trip", 500000, 120000, "Plane")

  const TagState := AppState(Profile("Decio", "", true, true), SeedAccounts, [Groceries], [], [EmergencyFund, JapanTrip], [], None)

  /** Tagging the $145.50 grocery expense to the Japan Trip goal, which holds
      $1,200, brings it to $1,345.50 and records one rule; tagging it again
      brings it to $1,491. The Emergency Fund is untouched. */
  lemma TagGoalExample()
    ensures Tagging.TagGoal(TagState, "1", "g2", "r1").goals[1].current == 134550
    ensures Tagging.TagGoal(TagState, "1", "g2", "r1").goals[0] == EmergencyFund
    ensures |RulesOf(Tagging.TagGoal(TagState, "1", "g2", "r1"))| == 1
    ensures Tagging.TagGoal(Tagging.TagGoal(TagState, "1", "g2", "r1"), "1", "g2", "r2").goals[1].current == 149100
  {
    assert Tagging.FindTransaction(TagState.transactions, "1") == Some(0);
    assert TagState.goals[0].id != "g2" && TagState.goals[1].id == "g2";
    assert Tagging.FindGoal(TagState.goals, "g2") == Some(1);
    Tagging.TagGoalTwice(TagState, "1", "g2", "r1", "r2");
  }

  /** The first seed transaction carries the number 1 and renders as "1".
      Confirming its deletion keeps it as written, while `DeleteTransaction`
      removes it. */
  lemma SeedDeleteKeepsNumbered()
    ensures Store.IdText(Store.NumId(1)) == Groceries.id
    ensures Store.DeleteTransactionAsWritten([Store.Stored(Store.NumId(1), Groceries)], "1", true)
      == [Store.Stored(Store.NumId(1), Groceries)]
    ensures Store.DeleteTransaction(TagState, "1", true).transactions == []
  {
    var row := Store.Stored(Store.NumId(1), Groceries);
    var kept := Store.DeleteTransactionAsWritten([row], "1", true);
    assert row in kept;
    assert |kept| <= 1;
  }
}
