/** Smart tagging (`confirmTagGoal`, `confirmTagDebt`): linking an expense
    to a savings goal or a debt moves its magnitude onto that goal or debt,
    relabels the transaction and records a rule. Lookups take the first
    entity with the id, as `Array.prototype.find` does. The rule id, built
    from the clock in the source, is a parameter. */
module Tagging {
  import opened Wrappers
  import opened Entities
  import opened Seqs

  function FindTransaction(txs: seq<Transaction>, id: string): Option<nat> {
    FirstIndex(txs, (t: Transaction) => t.id == id)
  }

  function FindGoal(goals: seq<Goal>, id: string): Option<nat> {
    FirstIndex(goals, (g: Goal) => g.id == id)
  }

  function FindAccount(accounts: seq<Account>, id: string): Option<nat> {
    FirstIndex(accounts, (a: Account) => a.id == id)
  }

  /** The category a goal-tagged transaction gets: `Goal: ${goal.name}`. */
  function GoalLabel(name: string): string {
    "Goal: " + name
  }

  /** The rules list with one more rule, created if it was absent. */
  function AppendRule(rules: Option<seq<Rule>>, rule: Rule): (r: Option<seq<Rule>>)
    ensures r.Some?
    ensures |r.value| == |rules.GetOr([])| + 1
    ensures r.value[..|rules.GetOr([])|] == rules.GetOr([])
    ensures r.value[|rules.GetOr([])|] == rule
  {
    Some(rules.GetOr([]) + [rule])
  }

  /** `confirmTagGoal`. Unchanged when either id does not resolve. */
  function TagGoal(s: AppState, txId: string, goalId: string, ruleId: string): (r: AppState)
    ensures FindTransaction(s.transactions, txId).None? || FindGoal(s.goals, goalId).None? ==> r == s
    ensures FindTransaction(s.transactions, txId).Some? && FindGoal(s.goals, goalId).Some? ==>
      var ti := FindTransaction(s.transactions, txId).value;
      var gi := FindGoal(s.goals, goalId).value;
      var t, g := s.transactions[ti], s.goals[gi];
      && |r.goals| == |s.goals|
      && r.goals[gi] == g.(current := g.current + Abs(t.amount))
      && (forall j :: 0 <= j < |s.goals| && j != gi ==> r.goals[j] == s.goals[j])
      && |r.transactions| == |s.transactions|
      && r.transactions[ti] == t.(category := GoalLabel(g.name), icon := "Target")
      && (forall j :: 0 <= j < |s.transactions| && j != ti ==> r.transactions[j] == s.transactions[j])
      && RulesOf(r) == RulesOf(s) + [Rule(ruleId, t.name, GoalRule, goalId, g.name)]
      && r.user == s.user && r.accounts == s.accounts && r.subscriptions == s.subscriptions
      && r.chatHistory == s.chatHistory
  {
    match (FindTransaction(s.transactions, txId), FindGoal(s.goals, goalId))
    case (Some(ti), Some(gi)) =>
      var t, g := s.transactions[ti], s.goals[gi];
      s.(goals := s.goals[gi := g.(current := g.current + Abs(t.amount))],
         transactions := s.transactions[ti := t.(category := GoalLabel(g.name), icon := "Target")],
         rules := AppendRule(s.rules, Rule(ruleId, t.name, GoalRule, goalId, g.name)))
    case _ => s
  }

  /** `confirmTagDebt`: the account is any account with the id (the picker
      only offers debts, the lookup does not check). */
  function TagDebt(s: AppState, txId: string, debtId: string, ruleId: string): (r: AppState)
    ensures FindTransaction(s.transactions, txId).None? || FindAccount(s.accounts, debtId).None? ==> r == s
    ensures FindTransaction(s.transactions, txId).Some? && FindAccount(s.accounts, debtId).Some? ==>
      var ti := FindTransaction(s.transactions, txId).value;
      var ai := FindAccount(s.accounts, debtId).value;
      var t, a := s.transactions[ti], s.accounts[ai];
      && |r.accounts| == |s.accounts|
      && r.accounts[ai] == a.(balance := a.balance + Abs(t.amount))
      && (forall j :: 0 <= j < |s.accounts| && j != ai ==> r.accounts[j] == s.accounts[j])
      && |r.transactions| == |s.transactions|
      && r.transactions[ti] == t.(category := "Debt Payment", icon := "CreditCard")
      && (forall j :: 0 <= j < |s.transactions| && j != ti ==> r.transactions[j] == s.transactions[j])
      && RulesOf(r) == RulesOf(s) + [Rule(ruleId, t.name, DebtRule, debtId, a.name)]
      && r.user == s.user && r.goals == s.goals && r.subscriptions == s.subscriptions
      && r.chatHistory == s.chatHistory
  {
    match (FindTransaction(s.transactions, txId), FindAccount(s.accounts, debtId))
    case (Some(ti), Some(ai)) =>
      var t, a := s.transactions[ti], s.accounts[ai];
      s.(accounts := s.accounts[ai := a.(balance := a.balance + Abs(t.amount))],
         transactions := s.transactions[ti := t.(category := "Debt Payment", icon := "CreditCard")],
         rules := AppendRule(s.rules, Rule(ruleId, t.name, DebtRule, debtId, a.name)))
    case _ => s
  }

  /** A tag either records exactly one rule or changes nothing at all. */
  lemma TagGoalChangesIffResolved(s: AppState, txId: string, goalId: string, ruleId: string)
    ensures TagGoal(s, txId, goalId, ruleId) == s <==>
      FindTransaction(s.transactions, txId).None? || FindGoal(s.goals, goalId).None?
    ensures TagGoal(s, txId, goalId, ruleId) != s ==>
      |RulesOf(TagGoal(s, txId, goalId, ruleId))| == |RulesOf(s)| + 1
  {
    var r := TagGoal(s, txId, goalId, ruleId);
    if FindTransaction(s.transactions, txId).Some? && FindGoal(s.goals, goalId).Some? {
      assert |RulesOf(r)| == |RulesOf(s)| + 1;
    }
  }

  function Saved(g: Goal): int {
    g.current
  }

  /** Tagging to a goal moves exactly the transaction's magnitude into
      savings and leaves net worth alone. */
  lemma TagGoalMovesAmount(s: AppState, txId: string, goalId: string, ruleId: string)
    requires FindTransaction(s.transactions, txId).Some? && FindGoal(s.goals, goalId).Some?
    ensures var t := s.transactions[FindTransaction(s.transactions, txId).value];
      SumOf(TagGoal(s, txId, goalId, ruleId).goals, Saved) == SumOf(s.goals, Saved) + Abs(t.amount)
    ensures SumOf(TagGoal(s, txId, goalId, ruleId).accounts, Balance) == SumOf(s.accounts, Balance)
  {
    var ti := FindTransaction(s.transactions, txId).value;
    var gi := FindGoal(s.goals, goalId).value;
    var t, g := s.transactions[ti], s.goals[gi];
    SumOfUpdate(s.goals, gi, g.(current := g.current + Abs(t.amount)), Saved);
  }

  /** Tagging a debt payment raises the account's balance, and with it net
      worth, by exactly the transaction's magnitude. */
  lemma TagDebtMovesAmount(s: AppState, txId: string, debtId: string, ruleId: string)
    requires FindTransaction(s.transactions, txId).Some? && FindAccount(s.accounts, debtId).Some?
    ensures var t := s.transactions[FindTransaction(s.transactions, txId).value];
      SumOf(TagDebt(s, txId, debtId, ruleId).accounts, Balance) == SumOf(s.accounts, Balance) + Abs(t.amount)
    ensures SumOf(TagDebt(s, txId, debtId, ruleId).goals, Saved) == SumOf(s.goals, Saved)
  {
    var ti := FindTransaction(s.transactions, txId).value;
    var ai := FindAccount(s.accounts, debtId).value;
    var t, a := s.transactions[ti], s.accounts[ai];
    SumOfUpdate(s.accounts, ai, a.(balance := a.balance + Abs(t.amount)), Balance);
  }

  /** Tagging is not idempotent: the same tag applied twice counts the
      transaction twice and records two rules. */
  lemma TagGoalTwice(s: AppState, txId: string, goalId: string, id1: string, id2: string)
    requires FindTransaction(s.transactions, txId).Some? && FindGoal(s.goals, goalId).Some?
    ensures var t := s.transactions[FindTransaction(s.transactions, txId).value];
      var gi := FindGoal(s.goals, goalId).value;
      var r := TagGoal(TagGoal(s, txId, goalId, id1), txId, goalId, id2);
      r.goals[gi].current == s.goals[gi].current + 2 * Abs(t.amount)
      && |RulesOf(r)| == |RulesOf(s)| + 2
  {
    var s1 := TagGoal(s, txId, goalId, id1);
    var ti := FindTransaction(s.transactions, txId).value;
    var gi := FindGoal(s.goals, goalId).value;
    SameLookups(s.transactions, s1.transactions, txId, ti);
    SameGoalLookup(s.goals, s1.goals, goalId, gi);
  }

  lemma TagDebtTwice(s: AppState, txId: string, debtId: string, id1: string, id2: string)
    requires FindTransaction(s.transactions, txId).Some? && FindAccount(s.accounts, debtId).Some?
    ensures var t := s.transactions[FindTransaction(s.transactions, txId).value];
      var ai := FindAccount(s.accounts, debtId).value;
      var r := TagDebt(TagDebt(s, txId, debtId, id1), txId, debtId, id2);
      r.accounts[ai].balance == s.accounts[ai].balance + 2 * Abs(t.amount)
      && |RulesOf(r)| == |RulesOf(s)| + 2
  {
    var s1 := TagDebt(s, txId, debtId, id1);
    var ti := FindTransaction(s.transactions, txId).value;
    var ai := FindAccount(s.accounts, debtId).value;
    SameLookups(s.transactions, s1.transactions, txId, ti);
    SameAccountLookup(s.accounts, s1.accounts, debtId, ai);
  }

  /** Relabelling keeps ids, so the transaction still resolves to the same
      index after a tag. */
  lemma SameLookups(a: seq<Transaction>, b: seq<Transaction>, id: string, i: nat)
    requires FindTransaction(a, id) == Some(i)
    requires |a| == |b| && (forall j :: 0 <= j < |a| ==> a[j].id == b[j].id)
    ensures FindTransaction(b, id) == Some(i)
  {
    var p := (t: Transaction) => t.id == id;
    assert forall j :: 0 <= j < |a| ==> p(a[j]) == p(b[j]);
    if FindTransaction(b, id).Some? {
      var k := FindTransaction(b, id).value;
      assert !(k < i) && !(i < k);
    }
  }

  lemma SameGoalLookup(a: seq<Goal>, b: seq<Goal>, id: string, i: nat)
    requires FindGoal(a, id) == Some(i)
    requires |a| == |b| && (forall j :: 0 <= j < |a| ==> a[j].id == b[j].id)
    ensures FindGoal(b, id) == Some(i)
  {
    var p := (g: Goal) => g.id == id;
    assert forall j :: 0 <= j < |a| ==> p(a[j]) == p(b[j]);
    if FindGoal(b, id).Some? {
      var k := FindGoal(b, id).value;
      assert !(k < i) && !(i < k);
    }
  }

  lemma SameAccountLookup(a: seq<Account>, b: seq<Account>, id: string, i: nat)
    requires FindAccount(a, id) == Some(i)
    requires |a| == |b| && (forall j :: 0 <= j < |a| ==> a[j].id == b[j].id)
    ensures FindAccount(b, id) == Some(i)
  {
    var p := (x: Account) => x.id == id;
    assert forall j :: 0 <= j < |a| ==> p(a[j]) == p(b[j]);
    if FindAccount(b, id).Some? {
      var k := FindAccount(b, id).value;
      assert !(k < i) && !(i < k);
    }
  }
}
