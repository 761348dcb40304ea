/** The financial entities held in the single application state record.
    Money is in integer cents (the seed data has two decimal places), APRs
    in hundredths of a percent (24.99% is 2499), and calendar months are
    the 0-based numbers `Date.getMonth()` returns. */
module Entities {
  import opened Wrappers

  /** A calendar month as `Date.getMonth()` reports it: 0 = January. */
  type MonthIndex = m: int | 0 <= m < 12

  datatype AccountType = Checking | Credit | Investment | Loan

  /** `apr` is present for debts created through the form and in the seed
      data; a missing APR is `None`. */
  datatype Account = Account(
    id: string,
    name: string,
    kind: AccountType,
    balance: int,
    institution: string,
    mask: string,
    apr: Option<int>)

  /** `category == ""` stands for a missing category. `date` is the display
      string ("Today, 10:23 AM", "Nov 18, 6:30 PM"); resolving it to a month
      is left to the caller. Ids are compared as strings. */
  datatype Transaction = Transaction(
    id: string,
    name: string,
    date: string,
    amount: int,
    category: string,
    accountId: string,
    icon: string,
    pending: bool,
    recurring: bool)

  datatype Goal = Goal(id: string, name: string, target: int, current: int, icon: string)

  datatype Subscription = Subscription(
    id: string,
    name: string,
    amount: int,
    cycle: string,
    nextDue: string,
    icon: string)

  datatype RuleKind = GoalRule | DebtRule

  /** A tagging rule: recorded when a transaction is tagged, never consulted. */
  datatype Rule = Rule(id: string, pattern: string, kind: RuleKind, targetId: string, targetName: string)

  /** What the assistant answered, with the figure it computed, instead of
      the HTML sentence it renders. */
  datatype Intent =
    | UberSpend(total: int)
    | MonthSpend(total: int)
    | NetWorthReply(total: int)
    | Afford(savings: int)
    | Bills(count: nat, total: int)
    | Help

  datatype Role = FromUser | FromAi

  datatype Content = Plain(text: string) | Answer(intent: Intent)

  datatype ChatMessage = ChatMessage(role: Role, content: Content)

  datatype Profile = Profile(name: string, avatar: string, mfaEnabled: bool, biometricEnabled: bool)

  /** The single root record. `rules` is `None` until the first tag creates it. */
  datatype AppState = AppState(
    user: Profile,
    accounts: seq<Account>,
    transactions: seq<Transaction>,
    subscriptions: seq<Subscription>,
    goals: seq<Goal>,
    chatHistory: seq<ChatMessage>,
    rules: Option<seq<Rule>>)

  /** The recorded rules, an absent list read as empty. */
  function RulesOf(s: AppState): seq<Rule> {
    s.rules.GetOr([])
  }

  /** Credit cards and loans: the accounts the debt planner works on. */
  predicate IsDebt(a: Account) {
    a.kind == Credit || a.kind == Loan
  }

  function Abs(x: int): int {
    if x < 0 then -x else x
  }

  function Balance(a: Account): int {
    a.balance
  }

  function Amount(t: Transaction): int {
    t.amount
  }
}
