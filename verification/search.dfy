/** Global search (`renderSearchResults`): a case-insensitive substring scan
    over transactions (name or category), then subscriptions (name), then
    goals (name). A hit names its collection and index; what the overlay
    shows and where a click navigates are derived from it. */
module Search {
  import opened Entities
  import opened Text

  datatype Kind = TransactionHit | SubscriptionHit | GoalHit

  /** The order of the three groups in the result list. */
  function Rank(k: Kind): int {
    match k
    case TransactionHit => 0
    case SubscriptionHit => 1
    case GoalHit => 2
  }

  datatype Hit = Hit(kind: Kind, index: nat)

  /** `a` is listed before `b`: an earlier group, or the same group and an
      earlier position in the source collection. */
  predicate Before(a: Hit, b: Hit) {
    Rank(a.kind) < Rank(b.kind) || (a.kind == b.kind && a.index < b.index)
  }

  predicate TransactionMatches(t: Transaction, lowerQuery: string) {
    Contains(Lower(t.name), lowerQuery) || Contains(Lower(t.category), lowerQuery)
  }

  predicate SubscriptionMatches(sub: Subscription, lowerQuery: string) {
    Contains(Lower(sub.name), lowerQuery)
  }

  predicate GoalMatches(g: Goal, lowerQuery: string) {
    Contains(Lower(g.name), lowerQuery)
  }

  /** The `forEach` over one collection from index `from` on: the matching
      indices, in increasing order. */
  function Scan<T>(xs: seq<T>, p: T -> bool, kind: Kind, from: nat): (r: seq<Hit>)
    requires from <= |xs|
    decreases |xs| - from
    ensures forall h :: h in r ==> h.kind == kind && from <= h.index < |xs| && p(xs[h.index])
    ensures forall i :: from <= i < |xs| && p(xs[i]) ==> Hit(kind, i) in r
    ensures forall i, j :: 0 <= i < j < |r| ==> r[i].index < r[j].index
  {
    if from == |xs| then []
    else
      var rest := Scan(xs, p, kind, from + 1);
      if p(xs[from]) then
        var r := [Hit(kind, from)] + rest;
        assert forall i :: 1 <= i < |r| ==> r[i] in rest;
        r
      else rest
  }

  /** A hit refers to an entity of `s` that matches the lower-cased query. */
  predicate ValidHit(s: AppState, lowerQuery: string, h: Hit) {
    match h.kind
    case TransactionHit =>
      h.index < |s.transactions| && TransactionMatches(s.transactions[h.index], lowerQuery)
    case SubscriptionHit =>
      h.index < |s.subscriptions| && SubscriptionMatches(s.subscriptions[h.index], lowerQuery)
    case GoalHit =>
      h.index < |s.goals| && GoalMatches(s.goals[h.index], lowerQuery)
  }

  /** The search: nothing for a blank query; otherwise every matching
      transaction, subscription and goal exactly once, transactions first,
      then subscriptions, then goals, each group in collection order. The
      query is lower-cased but not trimmed. */
  function Search(s: AppState, query: string): (r: seq<Hit>)
    ensures IsBlank(query) ==> r == []
    ensures forall h :: h in r ==> ValidHit(s, Lower(query), h)
    ensures !IsBlank(query) ==> forall i ::
      (0 <= i < |s.transactions| && TransactionMatches(s.transactions[i], Lower(query)))
      ==> Hit(TransactionHit, i) in r
    ensures !IsBlank(query) ==> forall i ::
      (0 <= i < |s.subscriptions| && SubscriptionMatches(s.subscriptions[i], Lower(query)))
      ==> Hit(SubscriptionHit, i) in r
    ensures !IsBlank(query) ==> forall i ::
      (0 <= i < |s.goals| && GoalMatches(s.goals[i], Lower(query)))
      ==> Hit(GoalHit, i) in r
    ensures forall i, j :: 0 <= i < j < |r| ==> Before(r[i], r[j])
  {
    if IsBlank(query) then []
    else
      var q := Lower(query);
      var ts := Scan(s.transactions, (t: Transaction) => TransactionMatches(t, q), TransactionHit, 0);
      var ss := Scan(s.subscriptions, (x: Subscription) => SubscriptionMatches(x, q), SubscriptionHit, 0);
      var gs := Scan(s.goals, (g: Goal) => GoalMatches(g, q), GoalHit, 0);
      Concat3Ordered(ts, ss, gs);
      ts + ss + gs
  }

  lemma Concat3Ordered(ts: seq<Hit>, ss: seq<Hit>, gs: seq<Hit>)
    requires forall h :: h in ts ==> h.kind == TransactionHit
    requires forall h :: h in ss ==> h.kind == SubscriptionHit
    requires forall h :: h in gs ==> h.kind == GoalHit
    requires forall i, j :: 0 <= i < j < |ts| ==> ts[i].index < ts[j].index
    requires forall i, j :: 0 <= i < j < |ss| ==> ss[i].index < ss[j].index
    requires forall i, j :: 0 <= i < j < |gs| ==> gs[i].index < gs[j].index
    ensures var r := ts + ss + gs; forall i, j :: 0 <= i < j < |r| ==> Before(r[i], r[j])
  {
    var r := ts + ss + gs;
    forall i, j | 0 <= i < j < |r| ensures Before(r[i], r[j]) {
      var a, b := |ts|, |ts| + |ss|;
      if j < a {
        assert r[i] == ts[i] && r[j] == ts[j];
      } else if j < b {
        assert r[j] == ss[j - a] && r[j] in ss;
        if i >= a {
          assert r[i] == ss[i - a];
        } else {
          assert r[i] == ts[i] && r[i] in ts;
        }
      } else {
        assert r[j] == gs[j - b] && r[j] in gs;
        if i >= b {
          assert r[i] == gs[i - b];
        } else if i >= a {
          assert r[i] == ss[i - a] && r[i] in ss;
        } else {
          assert r[i] == ts[i] && r[i] in ts;
        }
      }
    }
  }

  /** The rows of the overlay, one per hit, in hit order. */
  function Results(s: AppState, query: string): (r: seq<SearchResult>)
    ensures |r| == |Search(s, query)|
    ensures forall i :: 0 <= i < |r| ==> r[i].kind == Search(s, query)[i].kind
    ensures IsBlank(query) ==> r == []
    ensures forall i :: 0 <= i < |r| ==>
      InRange(s, Search(s, query)[i]) && r[i] == Present(s, Search(s, query)[i])
  {
    var hits := Search(s, query);
    assert forall h :: h in hits ==> InRange(s, h);
    seq(|hits|, i requires 0 <= i < |hits| => Present(s, hits[i]))
  }

  /** Listing is strict, so no entity is reported twice. */
  lemma NoDuplicateHits(s: AppState, query: string, i: int, j: int)
    requires 0 <= i < j < |Search(s, query)|
    ensures Search(s, query)[i] != Search(s, query)[j]
  {
  }

  /** Matching is case-insensitive: a goal whose name contains the query,
      once both are lower-cased, is found. */
  lemma GoalNameFound(s: AppState, query: string, i: nat, at: nat)
    requires !IsBlank(query) && i < |s.goals| && OccursAt(Lower(s.goals[i].name), Lower(query), at)
    ensures Hit(GoalHit, i) in Search(s, query)
  {
    ContainsIff(Lower(s.goals[i].name), Lower(query));
  }

  /** In particular a goal whose name contains the query with the same
      letter case is found. */
  lemma GoalNameFoundExactly(s: AppState, query: string, i: nat, at: nat)
    requires !IsBlank(query) && i < |s.goals| && OccursAt(s.goals[i].name, query, at)
    ensures Hit(GoalHit, i) in Search(s, query)
  {
    LowerKeepsOccurrence(s.goals[i].name, query, at);
    GoalNameFound(s, query, i, at);
  }

  /** A hit indexes into its own collection. */
  predicate InRange(s: AppState, h: Hit) {
    match h.kind
    case TransactionHit => h.index < |s.transactions|
    case SubscriptionHit => h.index < |s.subscriptions|
    case GoalHit => h.index < |s.goals|
  }

  /** Where a result leads: `navigate(view)` plus the sub-tab or filter it sets. */
  datatype Destination = TransactionsAll | Planning | WealthGoals

  datatype SearchResult = SearchResult(kind: Kind, title: string, icon: string, destination: Destination)

  /** One row of the result list. */
  function Present(s: AppState, h: Hit): (r: SearchResult)
    requires InRange(s, h)
    ensures r.kind == h.kind
    ensures r.kind == TransactionHit ==> r.destination == TransactionsAll
    ensures r.kind == SubscriptionHit ==> r.destination == Planning
    ensures r.kind == GoalHit ==> r.destination == WealthGoals
    ensures r.kind == TransactionHit ==> r.title == s.transactions[h.index].name
    ensures r.kind == SubscriptionHit ==> r.title == s.subscriptions[h.index].name
    ensures r.kind == GoalHit ==> r.title == s.goals[h.index].name
  {
    match h.kind
    case TransactionHit =>
      var t := s.transactions[h.index];
      SearchResult(TransactionHit, t.name, t.icon, TransactionsAll)
    case SubscriptionHit =>
      var x := s.subscriptions[h.index];
      SearchResult(SubscriptionHit, x.name, x.icon, Planning)
    case GoalHit =>
      var g := s.goals[h.index];
      SearchResult(GoalHit, g.name, g.icon, WealthGoals)
  }
}
