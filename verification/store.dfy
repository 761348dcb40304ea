/** Mutations of the application state outside tagging: loading a saved
    snapshot (with the chat-history migration), creating goals and debts
    from the modal forms, and deleting goals, debts and transactions. The
    form fields arrive already parsed: `None` stands for the `NaN` that
    `parseFloat` returns for an unparseable field, and the fresh id
    (`'g' + Date.now()`, `'a' + Date.now()`) is a parameter. */
module Store {
  import opened Wrappers
  import opened Entities
  import opened Seqs
  import Icons
  import Debt

  /** A parsed `novaState` snapshot. Snapshots written before the assistant
      existed have no `chatHistory`. */
  datatype Snapshot = Snapshot(
    user: Profile,
    accounts: seq<Account>,
    transactions: seq<Transaction>,
    subscriptions: seq<Subscription>,
    goals: seq<Goal>,
    chatHistory: Option<seq<ChatMessage>>,
    rules: Option<seq<Rule>>)

  /** The assistant's opening line, recorded in a fresh history. */
  const Greeting: string := "Hello! I'm Nova, your financial assistant. I can help you analyze your spending, track your net worth, or plan for big purchases. How can I help you today?"

  function Save(s: AppState): (r: Snapshot)
    ensures r.chatHistory == Some(s.chatHistory)
  {
    Snapshot(s.user, s.accounts, s.transactions, s.subscriptions, s.goals, Some(s.chatHistory), s.rules)
  }

  /** `loadState`: a saved snapshot is used as it is, with a missing chat
      history backfilled as empty; with nothing saved, the generated seed
      data starts with the greeting as its only message. */
  function Load(saved: Option<Snapshot>, seed: AppState): (r: AppState)
    ensures saved.Some? ==> r.accounts == saved.value.accounts && r.transactions == saved.value.transactions
    ensures saved.Some? ==> r.subscriptions == saved.value.subscriptions && r.goals == saved.value.goals
    ensures saved.Some? ==> r.rules == saved.value.rules && r.user == saved.value.user
    ensures saved.Some? ==> r.chatHistory == saved.value.chatHistory.GetOr([])
    ensures saved.None? ==> r == seed.(chatHistory := [ChatMessage(FromAi, Plain(Greeting))])
  {
    match saved
    case Some(p) => AppState(p.user, p.accounts, p.transactions, p.subscriptions, p.goals, p.chatHistory.GetOr([]), p.rules)
    case None => seed.(chatHistory := [ChatMessage(FromAi, Plain(Greeting))])
  }

  /** Saving and loading again gives back the same state, whatever the seed. */
  lemma LoadSave(s: AppState, seed: AppState)
    ensures Load(Some(Save(s)), seed) == s
  {
  }

  /** Only a snapshot that lacks the history is migrated, and then to an
      empty history. */
  lemma MigrationBackfills(p: Snapshot, seed: AppState)
    requires p.chatHistory.None?
    ensures Load(Some(p), seed).chatHistory == []
    ensures Save(Load(Some(p), seed)) == p.(chatHistory := Some([]))
  {
  }

  datatype FormError = MissingField

  /** `confirmAddGoal`: the name must be non-empty and the target a number.
      The new goal starts with nothing saved and an icon chosen from its name. */
  function AddGoal(s: AppState, id: string, name: string, target: Option<int>): (r: Result<AppState, FormError>)
    ensures r.Failure? <==> name == [] || target.None?
    ensures r.Success? ==> r.value == s.(goals := r.value.goals)
    ensures r.Success? ==> |r.value.goals| == |s.goals| + 1
    ensures r.Success? ==> r.value.goals[..|s.goals|] == s.goals
    ensures r.Success? ==> var g := r.value.goals[|s.goals|];
      g.id == id && g.name == name && g.target == target.value
      && g.current == 0 && g.icon == Icons.SmartIcon(name)
  {
    if name == [] || target.None? then Failure(MissingField)
    else
      var goals := s.goals + [Goal(id, name, target.value, 0, Icons.SmartIcon(name))];
      assert goals[..|s.goals|] == s.goals;
      Success(s.(goals := goals))
  }

  /** A new goal starts empty, so the total saved across goals is unchanged. */
  lemma AddGoalKeepsSavings(s: AppState, id: string, name: string, target: Option<int>)
    requires name != [] && target.Some?
    ensures SumOf(AddGoal(s, id, name, target).value.goals, (g: Goal) => g.current) == SumOf(s.goals, (g: Goal) => g.current)
  {
    var after := AddGoal(s, id, name, target).value.goals;
    assert after == s.goals + [after[|s.goals|]];
    SumOfAppend(s.goals, [after[|s.goals|]], (g: Goal) => g.current);
  }

  /** Deleting a goal just added under a fresh id gives back the state before. */
  lemma AddGoalThenDelete(s: AppState, id: string, name: string, target: Option<int>)
    requires name != [] && target.Some?
    requires forall g :: g in s.goals ==> g.id != id
    ensures ConfirmDelete(AddGoal(s, id, name, target).value, Some(Item(GoalItem, id))) == s
  {
    var added := AddGoal(s, id, name, target).value;
    var g := added.goals[|s.goals|];
    assert added.goals == s.goals + [g];
    assert forall i :: 0 <= i < |s.goals| ==> s.goals[i] in s.goals;
    FilterDropsLast(s.goals, g, (g: Goal) => g.id != id);
    assert WithoutGoal(added.goals, id) == s.goals;
  }

  /** `confirmAddDebt`: the name must be non-empty and balance and APR
      numbers. A positive balance is negated so that the debt is stored as
      a non-positive balance; the account is marked as entered by hand.
      The form's type selector offers only credit cards and loans. */
  function AddDebt(s: AppState, id: string, name: string, kind: AccountType, balance: Option<int>, apr: Option<int>)
    : (r: Result<AppState, FormError>)
    requires kind == Credit || kind == Loan
    ensures r.Failure? <==> name == [] || balance.None? || apr.None?
    ensures r.Success? ==> r.value == s.(accounts := r.value.accounts)
    ensures r.Success? ==> |r.value.accounts| == |s.accounts| + 1
    ensures r.Success? ==> r.value.accounts[..|s.accounts|] == s.accounts
    ensures r.Success? ==> var a := r.value.accounts[|s.accounts|];
      a.id == id && a.name == name && a.kind == kind && a.apr == apr
      && a.institution == "Manual Entry" && a.mask == "XXXX"
      && a.balance <= 0 && Abs(a.balance) == Abs(balance.value)
  {
    if name == [] || balance.None? || apr.None? then Failure(MissingField)
    else
      var b := if balance.value > 0 then -balance.value else balance.value;
      var accounts := s.accounts + [Account(id, name, kind, b, "Manual Entry", "XXXX", apr)];
      assert accounts[..|s.accounts|] == s.accounts;
      Success(s.(accounts := accounts))
  }

  /** Deleting a debt just added under a fresh account id gives back the state before. */
  lemma AddDebtThenDelete(s: AppState, id: string, name: string, kind: AccountType, balance: Option<int>, apr: Option<int>)
    requires kind == Credit || kind == Loan
    requires AddDebt(s, id, name, kind, balance, apr).Success?
    requires forall a :: a in s.accounts ==> a.id != id
    ensures ConfirmDelete(AddDebt(s, id, name, kind, balance, apr).value, Some(Item(DebtItem, id))) == s
  {
    var added := AddDebt(s, id, name, kind, balance, apr).value;
    var a := added.accounts[|s.accounts|];
    assert added.accounts == s.accounts + [a];
    assert forall i :: 0 <= i < |s.accounts| ==> s.accounts[i] in s.accounts;
    FilterDropsLast(s.accounts, a, (a: Account) => a.id != id);
    assert WithoutAccount(added.accounts, id) == s.accounts;
  }

  /** When every existing debt is stored as a non-positive balance, adding
      a debt raises the planner's total by exactly its amount. */
  lemma AddDebtRaisesTotal(s: AppState, id: string, name: string, kind: AccountType, balance: Option<int>, apr: Option<int>)
    requires kind == Credit || kind == Loan
    requires AddDebt(s, id, name, kind, balance, apr).Success?
    requires forall a :: a in s.accounts && IsDebt(a) ==> a.balance <= 0
    ensures Debt.TotalDebt(AddDebt(s, id, name, kind, balance, apr).value.accounts)
      == Debt.TotalDebt(s.accounts) + Abs(balance.value)
  {
    var after := AddDebt(s, id, name, kind, balance, apr).value.accounts;
    var a := after[|s.accounts|];
    assert after == s.accounts + [a];
    TotalDebtAppend(s.accounts, a);
  }

  lemma TotalDebtAppend(accounts: seq<Account>, a: Account)
    requires IsDebt(a) && a.balance <= 0
    requires forall x :: x in accounts && IsDebt(x) ==> x.balance <= 0
    ensures Debt.TotalDebt(accounts + [a]) == Debt.TotalDebt(accounts) - a.balance
  {
    FilterAppend(accounts, [a], IsDebt);
    assert Filter([a], IsDebt) == [a];
    var before := Debt.DebtAccounts(accounts);
    assert forall i :: 0 <= i < |before| ==> before[i] in before;
    OweOneMore(before, a);
  }

  lemma OweOneMore(before: seq<Account>, a: Account)
    requires a.balance <= 0
    requires forall i :: 0 <= i < |before| ==> before[i].balance <= 0
    ensures Abs(SumOf(before + [a], Balance)) == Abs(SumOf(before, Balance)) - a.balance
  {
    SumOfAppend(before, [a], Balance);
    assert SumOf([a], Balance) == a.balance;
    Debt.SumNonPositive(before);
  }

  /** What the delete confirmation was opened for: `itemToDelete.type` and
      its id. Any other type string deletes nothing. */
  datatype ItemKind = GoalItem | DebtItem | TransactionItem | OtherItem

  datatype Item = Item(kind: ItemKind, id: string)

  function WithoutGoal(goals: seq<Goal>, id: string): (r: seq<Goal>)
    ensures forall g :: g in r <==> g in goals && g.id != id
  {
    Filter(goals, (g: Goal) => g.id != id)
  }

  function WithoutAccount(accounts: seq<Account>, id: string): (r: seq<Account>)
    ensures forall a :: a in r <==> a in accounts && a.id != id
  {
    Filter(accounts, (a: Account) => a.id != id)
  }

  function WithoutTransaction(txs: seq<Transaction>, id: string): (r: seq<Transaction>)
    ensures forall t :: t in r <==> t in txs && t.id != id
  {
    Filter(txs, (t: Transaction) => t.id != id)
  }

  /** `confirmDelete`: with no pending item nothing happens; otherwise every
      element of the item's collection with that id is removed (a "debt"
      is any account with that id) and nothing else changes. */
  function ConfirmDelete(s: AppState, pending: Option<Item>): (r: AppState)
    ensures pending.None? || pending.value.kind == OtherItem ==> r == s
    ensures pending.Some? && pending.value.kind == GoalItem ==>
      r == s.(goals := r.goals) && forall g :: g in r.goals <==> g in s.goals && g.id != pending.value.id
    ensures pending.Some? && pending.value.kind == DebtItem ==>
      r == s.(accounts := r.accounts) && forall a :: a in r.accounts <==> a in s.accounts && a.id != pending.value.id
    ensures pending.Some? && pending.value.kind == TransactionItem ==>
      r == s.(transactions := r.transactions)
      && forall t :: t in r.transactions <==> t in s.transactions && t.id != pending.value.id
  {
    match pending
    case None => s
    case Some(Item(kind, id)) =>
      match kind
      case GoalItem => s.(goals := WithoutGoal(s.goals, id))
      case DebtItem => s.(accounts := WithoutAccount(s.accounts, id))
      case TransactionItem => s.(transactions := WithoutTransaction(s.transactions, id))
      case OtherItem => s
  }

  /** `deleteTransaction`: the same removal, behind a yes/no confirmation. */
  function DeleteTransaction(s: AppState, id: string, confirmed: bool): (r: AppState)
    ensures !confirmed ==> r == s
    ensures confirmed ==> r == s.(transactions := r.transactions)
    ensures confirmed ==> forall t :: t in r.transactions <==> t in s.transactions && t.id != id
  {
    if confirmed then ConfirmDelete(s, Some(Item(TransactionItem, id))) else s
  }

  /** A transaction id as the page's state holds it. The six hand-written
      seed transactions carry numbers (1 to 6), the generated ones strings
      ('h0', 'h1', ...); the table's delete button passes the id back as the
      string it renders. */
  datatype RawId = NumId(n: nat) | TextId(text: string)

  /** A stored transaction together with the id value it carries. */
  datatype Stored = Stored(rawId: RawId, tx: Transaction)

  /** The id as the table writes it into the page, `${t.id}`. */
  function IdText(v: RawId): (r: string)
    ensures v.TextId? ==> r == v.text
    ensures v.NumId? ==> r != [] && forall k :: 0 <= k < |r| ==> '0' <= r[k] <= '9'
  {
    match v
    case NumId(n) => Decimal(n)
    case TextId(t) => t
  }

  /** The decimal digits of `n`, most significant first. */
  function Decimal(n: nat): (r: string)
    ensures r != []
    ensures forall k :: 0 <= k < |r| ==> '0' <= r[k] <= '9'
  {
    if n < 10 then ["0123456789"[n]] else Decimal(n / 10) + ["0123456789"[n % 10]]
  }

  /** Every stored transaction carries, as its string id, the id it renders. */
  predicate Rendered(stored: seq<Stored>) {
    forall i :: 0 <= i < |stored| ==> stored[i].tx.id == IdText(stored[i].rawId)
  }

  function Transactions(stored: seq<Stored>): (r: seq<Transaction>)
    ensures |r| == |stored|
    ensures forall i :: 0 <= i < |stored| ==> r[i] == stored[i].tx
  {
    if stored == [] then [] else [stored[0].tx] + Transactions(stored[1..])
  }

  /** `deleteTransaction` as written: `t.id !== id` is a strict comparison
      with the button's string, so only a transaction whose stored id is that
      very string goes. */
  function DeleteTransactionAsWritten(stored: seq<Stored>, id: string, confirmed: bool): (r: seq<Stored>)
    ensures !confirmed ==> r == stored
    ensures confirmed ==> forall x :: x in r <==> x in stored && x.rawId != TextId(id)
  {
    if confirmed then Filter(stored, (x: Stored) => x.rawId != TextId(id)) else stored
  }

  /** A transaction with a numeric id survives a confirmed deletion of the
      id its own delete button sends, while `DeleteTransaction` removes it. */
  lemma {:induction false} NumericIdSurvivesDelete(s: AppState, stored: seq<Stored>, i: nat)
    requires Rendered(stored) && i < |stored| && stored[i].rawId.NumId?
    requires s.transactions == Transactions(stored)
    ensures stored[i] in stored
    ensures stored[i] in DeleteTransactionAsWritten(stored, stored[i].tx.id, true)
    ensures stored[i].tx !in DeleteTransaction(s, stored[i].tx.id, true).transactions
  {
    assert stored[i].rawId != TextId(stored[i].tx.id);
  }

  /** On string ids the code as written and `DeleteTransaction` agree: a
      stored transaction is kept by one exactly when it is kept by the other. */
  lemma {:induction false} TextIdsDeleteAlike(s: AppState, stored: seq<Stored>, id: string, i: nat)
    requires Rendered(stored) && i < |stored| && stored[i].rawId.TextId?
    requires s.transactions == Transactions(stored)
    ensures stored[i] in DeleteTransactionAsWritten(stored, id, true)
      <==> stored[i].tx in DeleteTransaction(s, id, true).transactions
  {
    assert s.transactions[i] == stored[i].tx;
  }

  /** Deleting is idempotent: a second deletion of the same item changes nothing. */
  lemma {:induction false} DeleteIdempotent(s: AppState, item: Item)
    ensures ConfirmDelete(ConfirmDelete(s, Some(item)), Some(item)) == ConfirmDelete(s, Some(item))
  {
    var once := ConfirmDelete(s, Some(item));
    match item.kind
    case GoalItem =>
      assert forall i :: 0 <= i < |once.goals| ==> once.goals[i] in once.goals;
      FilterAll(once.goals, (g: Goal) => g.id != item.id);
    case DebtItem =>
      assert forall i :: 0 <= i < |once.accounts| ==> once.accounts[i] in once.accounts;
      FilterAll(once.accounts, (a: Account) => a.id != item.id);
    case TransactionItem =>
      assert forall i :: 0 <= i < |once.transactions| ==> once.transactions[i] in once.transactions;
      FilterAll(once.transactions, (t: Transaction) => t.id != item.id);
    case OtherItem =>
  }

  /** The account column of the transactions table:
      `accounts.find(a => a.id === id)?.name || 'Unknown'`. An account
      found with an empty name also shows as 'Unknown'. */
  function AccountNameOf(accounts: seq<Account>, id: string): (r: string)
    ensures (forall a :: a in accounts ==> a.id != id) ==> r == "Unknown"
    ensures forall i :: (0 <= i < |accounts| && accounts[i].id == id && accounts[i].name != []
      && (forall j :: 0 <= j < i ==> accounts[j].id != id)) ==> r == accounts[i].name
    ensures r != []
  {
    match FirstIndex(accounts, (a: Account) => a.id == id)
    case Some(i) => if accounts[i].name == [] then "Unknown" else accounts[i].name
    case None => "Unknown"
  }

  /** Transactions of a deleted debt are kept and show "Unknown" as their account. */
  lemma DeletedAccountShowsUnknown(s: AppState, id: string, t: Transaction)
    requires t in s.transactions && t.accountId == id
    ensures var r := ConfirmDelete(s, Some(Item(DebtItem, id)));
      t in r.transactions && AccountNameOf(r.accounts, t.accountId) == "Unknown"
  {
  }
}
