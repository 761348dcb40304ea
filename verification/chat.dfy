/** The assistant chat: submitting a message and the canned, keyword-driven
    reply (`generateAIResponse`). The reply is modelled as the intent it
    chose together with the figure it computed; formatting the figure into
    an HTML sentence is left out. */
module Chat {
  import opened Wrappers
  import opened Entities
  import opened Seqs
  import opened Text
  import Analytics

  predicate AsksSpending(lowerText: string) {
    Contains(lowerText, "spend") || Contains(lowerText, "spent")
  }

  predicate AsksNetWorth(lowerText: string) {
    Contains(lowerText, "net worth")
  }

  predicate AsksAfford(lowerText: string) {
    Contains(lowerText, "afford") || Contains(lowerText, "vacation")
  }

  predicate AsksBills(lowerText: string) {
    Contains(lowerText, "subscription") || Contains(lowerText, "bill")
  }

  predicate MentionsUber(t: Transaction) {
    Contains(Lower(t.name), "uber")
  }

  /** A transaction's amount when its name mentions Uber, else nothing. */
  function UberAmount(t: Transaction): int {
    if MentionsUber(t) then t.amount else 0
  }

  predicate IsInvestment(a: Account) {
    a.kind == Investment
  }

  function SubscriptionAmount(x: Subscription): int {
    x.amount
  }

  /** Which of the canned answers a lower-cased message asks for. */
  datatype Topic = UberTopic | MonthTopic | NetWorthTopic | AffordTopic | BillsTopic | HelpTopic

  /** The keyword chain: the first rule that fires wins, so spending beats
      net worth, which beats affordability, which beats bills. */
  function Classify(lt: string): (r: Topic)
    ensures r == UberTopic <==> AsksSpending(lt) && Contains(lt, "uber")
    ensures r == MonthTopic <==> AsksSpending(lt) && !Contains(lt, "uber")
    ensures r == NetWorthTopic <==> !AsksSpending(lt) && AsksNetWorth(lt)
    ensures r == AffordTopic <==> !AsksSpending(lt) && !AsksNetWorth(lt) && AsksAfford(lt)
    ensures r == BillsTopic <==> !AsksSpending(lt) && !AsksNetWorth(lt) && !AsksAfford(lt) && AsksBills(lt)
    ensures r == HelpTopic <==> !AsksSpending(lt) && !AsksNetWorth(lt) && !AsksAfford(lt) && !AsksBills(lt)
  {
    if AsksSpending(lt) then (if Contains(lt, "uber") then UberTopic else MonthTopic)
    else if AsksNetWorth(lt) then NetWorthTopic
    else if AsksAfford(lt) then AffordTopic
    else if AsksBills(lt) then BillsTopic
    else HelpTopic
  }

  function TopicOf(i: Intent): Topic {
    match i
    case UberSpend(_) => UberTopic
    case MonthSpend(_) => MonthTopic
    case NetWorthReply(_) => NetWorthTopic
    case Afford(_) => AffordTopic
    case Bills(_, _) => BillsTopic
    case Help => HelpTopic
  }

  /** What the assistant answers to `text`: the topic the lower-cased text
      asks for, with its figure. Uber spending is the magnitude of the summed
      amounts of transactions whose name mentions Uber; this month's
      spending is the dashboard's figure; affordability is the first
      investment account's balance, 0 when there is none; bills are the
      count and monthly total of subscriptions. `month` is the current
      month and `rawMonth` resolves a transaction's date to a month, as in
      the dashboard. */
  function Reply(s: AppState, text: string, month: MonthIndex, rawMonth: Transaction -> Option<MonthIndex>): (r: Intent)
    ensures TopicOf(r) == Classify(Lower(text))
    ensures r.UberSpend? ==>
      r.total == Abs(SumOf(s.transactions, UberAmount))
    ensures r.UberSpend? ==> r.total >= 0
    ensures r.MonthSpend? ==> r.total == Analytics.MonthlySpend(s.transactions, month, rawMonth)
    ensures r.NetWorthReply? ==> r.total == Analytics.NetWorth(s.accounts)
    ensures r.Afford? && (forall a :: a in s.accounts ==> a.kind != Investment) ==> r.savings == 0
    ensures r.Afford? ==> forall i ::
      (0 <= i < |s.accounts| && s.accounts[i].kind == Investment
      && (forall j :: 0 <= j < i ==> s.accounts[j].kind != Investment))
      ==> r.savings == s.accounts[i].balance
    ensures r.Bills? ==> r.count == |s.subscriptions|
    ensures r.Bills? ==> r.total == SumOf(s.subscriptions, SubscriptionAmount)
  {
    match Classify(Lower(text))
    case UberTopic =>
      SumOfFilter(s.transactions, MentionsUber, Amount, UberAmount);
      UberSpend(Abs(SumOf(Filter(s.transactions, MentionsUber), Amount)))
    case MonthTopic => MonthSpend(Analytics.MonthlySpend(s.transactions, month, rawMonth))
    case NetWorthTopic => NetWorthReply(Analytics.NetWorth(s.accounts))
    case AffordTopic =>
      (match FirstIndex(s.accounts, IsInvestment)
       case Some(i) => Afford(s.accounts[i].balance)
       case None => Afford(0))
    case BillsTopic => Bills(|s.subscriptions|, SumOf(s.subscriptions, SubscriptionAmount))
    case HelpTopic => Help
  }

  /** The reply ignores letter case: the message and its lower-cased form
      get the same answer. */
  lemma ReplyIgnoresCase(s: AppState, text: string, month: MonthIndex, rawMonth: Transaction -> Option<MonthIndex>)
    ensures Reply(s, Lower(text), month, rawMonth) == Reply(s, text, month, rawMonth)
  {
    LowerIdempotent(text);
  }

  /** The reply reads the accounts, transactions and subscriptions only, so
      states that agree on those get the same answer. */
  lemma ReplyReadsFinances(s: AppState, t: AppState, text: string, month: MonthIndex, rawMonth: Transaction -> Option<MonthIndex>)
    requires s.accounts == t.accounts && s.transactions == t.transactions
    requires s.subscriptions == t.subscriptions
    ensures Reply(s, text, month, rawMonth) == Reply(t, text, month, rawMonth)
  {
  }

  /** `handleChatSubmit`: a blank input does nothing; otherwise the trimmed
      text is appended to the history as the user's message. */
  function Submit(s: AppState, input: string): (r: Option<AppState>)
    ensures r.None? <==> IsBlank(input)
    ensures r.Some? ==> r.value == s.(chatHistory := r.value.chatHistory)
    ensures r.Some? ==> |r.value.chatHistory| == |s.chatHistory| + 1
    ensures r.Some? ==> r.value.chatHistory[..|s.chatHistory|] == s.chatHistory
    ensures r.Some? ==> r.value.chatHistory[|s.chatHistory|] == ChatMessage(FromUser, Plain(Trim(input)))
    ensures r.Some? ==> Trim(input) != [] && !IsSpace(Trim(input)[0])
  {
    var text := Trim(input);
    if text == [] then None
    else Some(s.(chatHistory := s.chatHistory + [ChatMessage(FromUser, Plain(text))]))
  }

  /** The delayed second half of `handleChatSubmit`: the reply to
      `userText`, computed on the state at that moment, is appended. */
  function Deliver(s: AppState, userText: string, month: MonthIndex, rawMonth: Transaction -> Option<MonthIndex>): (r: AppState)
    ensures r == s.(chatHistory := r.chatHistory)
    ensures |r.chatHistory| == |s.chatHistory| + 1 && r.chatHistory[..|s.chatHistory|] == s.chatHistory
    ensures r.chatHistory[|s.chatHistory|] == ChatMessage(FromAi, Answer(Reply(s, userText, month, rawMonth)))
  {
    s.(chatHistory := s.chatHistory + [ChatMessage(FromAi, Answer(Reply(s, userText, month, rawMonth)))])
  }

  /** A complete exchange with no other change in between: the history
      grows by the trimmed question and the answer to it, computed on the
      finances as they were when the question was asked. */
  lemma ExchangeAppendsPair(s: AppState, input: string, month: MonthIndex, rawMonth: Transaction -> Option<MonthIndex>)
    requires !IsBlank(input)
    ensures Submit(s, input).Some?
    ensures var r := Deliver(Submit(s, input).value, Trim(input), month, rawMonth);
      r.chatHistory == s.chatHistory + [ChatMessage(FromUser, Plain(Trim(input))),
                                        ChatMessage(FromAi, Answer(Reply(s, Trim(input), month, rawMonth)))]
      && r == s.(chatHistory := r.chatHistory)
  {
    var u := Submit(s, input).value;
    ReplyReadsFinances(u, s, Trim(input), month, rawMonth);
    assert u.chatHistory == s.chatHistory + [ChatMessage(FromUser, Plain(Trim(input)))];
  }
}
