/** Locked funds are always exactly what is still unsold on open orders. */
module LockLedger {
  import opened Wrappers
  import opened Sums
  import opened Settlement

  function Remainder(o: OrderLeaf): int {
    o.sellAmt - o.accumulatedSellAmt
  }

  /** What order o still has to sell, if it is this account's and sells this token. */
  function Claim(o: OrderLeaf, account: nat, token: nat): int {
    if o.sender == account && o.sellTokenId == token then Remainder(o) else 0
  }

  function ClaimAt(orders: map<nat, OrderLeaf>, id: nat, account: nat, token: nat): int {
    if id in orders then Claim(orders[id], account, token) else 0
  }

  function HeldClaim(held: Option<OrderLeaf>, account: nat, token: nat): int {
    if held.Some? then Claim(held.value, account, token) else 0
  }

  ghost function OpenOrders(orders: map<nat, OrderLeaf>, account: nat, token: nat): int {
    SumOver(orders.Keys, id => ClaimAt(orders, id, account, token))
  }

  ghost predicate Balanced(s: State, account: nat, token: nat) {
    Balance(s, account, token).lockedAmt == OpenOrders(s.orders, account, token) + HeldClaim(s.held, account, token)
  }

  ghost predicate Ledger(s: State) {
    forall account, token :: Balanced(s, account, token)
  }

  predicate Registered(s: State, account: nat) {
    GetAccount(s, account).Some?
  }

  /** Leaves are stored under their own ids, all below the next id to be given out; the
      senders of open orders are registered; the leaf of a held order is empty. */
  ghost predicate WellFormed(s: State) {
    && (forall id :: id in s.orders ==> GoodLeaf(s, id))
    && (s.held.Some? ==> GoodHeld(s, s.held.value))
  }

  predicate GoodLeaf(s: State, id: nat) {
    && id in s.orders && s.orders[id].orderLeafId == id < s.currentOrderId
    && (s.orders[id].sender != 0 ==> s.orders[id].reqType != 0 && Registered(s, s.orders[id].sender))
    && (s.orders[id].reqType == 0 ==> s.orders[id] == EmptyLeaf(id))
  }

  predicate GoodHeld(s: State, o: OrderLeaf) {
    && o.sender != 0 && o.reqType != 0 && Registered(s, o.sender)
    && o.orderLeafId in s.orders && s.orders[o.orderLeafId] == EmptyLeaf(o.orderLeafId)
  }

  lemma OpenOrdersChange(orders: map<nat, OrderLeaf>, id: nat, leaf: OrderLeaf, account: nat, token: nat)
    ensures OpenOrders(orders[id := leaf], account, token)
         == OpenOrders(orders, account, token) + Claim(leaf, account, token) - ClaimAt(orders, id, account, token)
  {
    var orders' := orders[id := leaf];
    assert orders'.Keys == orders.Keys + {id};
    SumOverChange(orders.Keys, i => ClaimAt(orders, i, account, token), i => ClaimAt(orders', i, account, token), id);
  }

  /** The order that a removal requested by End takes away although it is still open. */
  predicate LosesOrder(s: State, r: Request) {
    && r.End? && s.held.Some? && s.held.value.sender != 0 && Registered(s, s.held.value.sender)
    && Remainder(s.held.value) == r.accumulatedSellAmt
    && Removable(s, r.orderLeafId) && Remainder(s.orders[r.orderLeafId]) != 0
  }

  /** The held order that a second Start forgets although it is still unsold. */
  predicate ForgetsHeld(s: State, r: Request) {
    && r.Start? && s.held.Some? && Remainder(s.held.value) != 0
    && r.orderLeafId in s.orders && s.orders[r.orderLeafId].sender != 0
  }

  /** By how much locked funds exceed what is unsold. */
  ghost function Gap(s: State, account: nat, token: nat): int {
    Balance(s, account, token).lockedAmt - OpenOrders(s.orders, account, token) - HeldClaim(s.held, account, token)
  }

  /** What becomes of the claims that a request drops without releasing the funds. */
  ghost function Dropped(s: State, r: Request, account: nat, token: nat): int {
    if ForgetsHeld(s, r) then Claim(s.held.value, account, token)
    else if LosesOrder(s, r) then Claim(s.orders[r.orderLeafId], account, token)
    else 0
  }

  lemma PlaceGap(s: State, r: Request, account: nat, token: nat)
    requires WellFormed(s) && r.Place?
    ensures Gap(Do(s, r).state, account, token) == Gap(s, account, token)
  {
    if Registered(s, r.account) {
      OpenOrdersChange(s.orders, s.currentOrderId, NewOrder(s, r), account, token);
      assert s.currentOrderId in s.orders ==> GoodLeaf(s, s.currentOrderId);
    }
  }

  lemma StartGap(s: State, r: Request, account: nat, token: nat)
    requires WellFormed(s) && r.Start?
    ensures Gap(Do(s, r).state, account, token) == Gap(s, account, token) + Dropped(s, r, account, token)
  {
    if r.orderLeafId in s.orders {
      assert GoodLeaf(s, r.orderLeafId);
      OpenOrdersChange(s.orders, r.orderLeafId, EmptyLeaf(r.orderLeafId), account, token);
    }
  }

  lemma ExchangeGap(s: State, r: Request, account: nat, token: nat)
    requires WellFormed(s) && r.Exchange?
    ensures Gap(Do(s, r).state, account, token) == Gap(s, account, token)
  {
    var id := r.orderLeafId;
    if id in s.orders {
      assert GoodLeaf(s, id);
      var filled := Filled(s.orders[id], r.accumulatedSellAmt, r.accumulatedBuyAmt);
      var left := if filled.accumulatedSellAmt == filled.sellAmt then EmptyLeaf(id) else filled;
      OpenOrdersChange(s.orders, id, left, account, token);
    }
  }

  lemma EndGap(s: State, r: Request, account: nat, token: nat)
    requires WellFormed(s) && r.End?
    ensures Gap(Do(s, r).state, account, token) == Gap(s, account, token) + Dropped(s, r, account, token)
  {
    if s.held.Some? {
      var taker, id := s.held.value, r.orderLeafId;
      if Remainder(taker) != r.accumulatedSellAmt {
        OpenOrdersChange(s.orders, taker.orderLeafId, Filled(taker, r.accumulatedSellAmt, r.accumulatedBuyAmt),
          account, token);
      } else if id in s.orders {
        assert GoodLeaf(s, id);
        OpenOrdersChange(s.orders, id, EmptyLeaf(id), account, token);
      }
    }
  }

  lemma CancelGap(s: State, r: Request, account: nat, token: nat)
    requires WellFormed(s) && r.Cancel?
    ensures Gap(Do(s, r).state, account, token) == Gap(s, account, token)
  {
    if r.orderLeafId in s.orders {
      assert GoodLeaf(s, r.orderLeafId);
      OpenOrdersChange(s.orders, r.orderLeafId, EmptyLeaf(r.orderLeafId), account, token);
    }
  }

  lemma RequestGap(s: State, r: Request, account: nat, token: nat)
    requires WellFormed(s)
    ensures Gap(Do(s, r).state, account, token) == Gap(s, account, token) + Dropped(s, r, account, token)
  {
    if r.Place? { PlaceGap(s, r, account, token); }
    else if r.Start? { StartGap(s, r, account, token); }
    else if r.Exchange? { ExchangeGap(s, r, account, token); }
    else if r.End? { EndGap(s, r, account, token); }
    else if r.Cancel? { CancelGap(s, r, account, token); }
  }

  /** A request keeps the ledger exactly when it neither starts a second taker over one that
      is still unsold nor, ending a fully filled taker, names another order that is. */
  lemma LedgerKeptExactly(s: State, r: Request)
    requires WellFormed(s) && Ledger(s)
    ensures Ledger(Do(s, r).state) <==> !ForgetsHeld(s, r) && !LosesOrder(s, r)
  {
    var s' := Do(s, r).state;
    forall account, token
      ensures Gap(s', account, token) == Dropped(s, r, account, token)
    {
      RequestGap(s, r, account, token);
      assert Balanced(s, account, token);
    }
    if ForgetsHeld(s, r) {
      var o := s.held.value;
      assert Gap(s', o.sender, o.sellTokenId) != 0 && !Balanced(s', o.sender, o.sellTokenId);
    } else if LosesOrder(s, r) {
      var o := s.orders[r.orderLeafId];
      assert Gap(s', o.sender, o.sellTokenId) != 0 && !Balanced(s', o.sender, o.sellTokenId);
    } else {
      forall account, token ensures Balanced(s', account, token) {
        assert Gap(s', account, token) == 0;
      }
    }
  }

  // ---------- Whole runs ----------

  /** An account that stands behind an open or the held order. */
  ghost predicate Trades(s: State, account: nat) {
    && account != 0
    && ((exists id :: id in s.orders && s.orders[id].sender == account)
        || (s.held.Some? && s.held.value.sender == account))
  }

  /** Registering an account again under the key 0 makes it count as absent. */
  ghost predicate KeepsAccounts(s: State, r: Request) {
    r.Register? && r.tsAddr == Some(0) ==> !Trades(s, r.account)
  }

  lemma PlaceWellFormed(s: State, r: Request)
    requires WellFormed(s) && r.Place?
    ensures WellFormed(Do(s, r).state)
  {
    var s' := Do(s, r).state;
    forall id | id in s'.orders ensures GoodLeaf(s', id) {
      if id in s.orders { assert GoodLeaf(s, id); }
    }
  }

  lemma StartWellFormed(s: State, r: Request)
    requires WellFormed(s) && r.Start?
    ensures WellFormed(Do(s, r).state)
  {
    var s' := Do(s, r).state;
    assert r.orderLeafId in s.orders ==> GoodLeaf(s, r.orderLeafId);
    forall id | id in s'.orders ensures GoodLeaf(s', id) {
      assert id in s.orders && GoodLeaf(s, id);
    }
  }

  lemma ExchangeWellFormed(s: State, r: Request)
    requires WellFormed(s) && r.Exchange?
    ensures WellFormed(Do(s, r).state)
  {
    var s' := Do(s, r).state;
    assert r.orderLeafId in s.orders ==> GoodLeaf(s, r.orderLeafId);
    forall id | id in s'.orders ensures GoodLeaf(s', id) {
      assert id in s.orders && GoodLeaf(s, id);
    }
  }

  lemma CancelWellFormed(s: State, r: Request)
    requires WellFormed(s) && r.Cancel?
    ensures WellFormed(Do(s, r).state)
  {
    var s' := Do(s, r).state;
    assert r.orderLeafId in s.orders ==> GoodLeaf(s, r.orderLeafId);
    forall id | id in s'.orders ensures GoodLeaf(s', id) {
      assert id in s.orders && GoodLeaf(s, id);
    }
  }

  lemma EndWellFormed(s: State, r: Request)
    requires WellFormed(s) && r.End?
    ensures WellFormed(Do(s, r).state)
  {
    var s' := Do(s, r).state;
    assert s.held.Some? ==> GoodLeaf(s, s.held.value.orderLeafId);
    assert r.orderLeafId in s.orders ==> GoodLeaf(s, r.orderLeafId);
    forall id | id in s'.orders ensures GoodLeaf(s', id) {
      assert id in s.orders && GoodLeaf(s, id);
    }
  }

  lemma RegisterWellFormed(s: State, r: Request)
    requires WellFormed(s) && r.Register?
    ensures WellFormed(Do(s, r).state) <==> KeepsAccounts(s, r)
  {
    var s' := Do(s, r).state;
    if KeepsAccounts(s, r) {
      forall id | id in s'.orders ensures GoodLeaf(s', id) {
        assert GoodLeaf(s, id);
      }
    } else if exists id :: id in s.orders && s.orders[id].sender == r.account {
      var id :| id in s.orders && s.orders[id].sender == r.account;
      assert !GoodLeaf(s', id);
    }
  }

  lemma BalanceWellFormed(s: State, r: Request)
    requires WellFormed(s) && (r.Deposit? || r.Withdraw? || r.Noop?)
    ensures WellFormed(Do(s, r).state)
  {
    var s' := Do(s, r).state;
    forall id | id in s'.orders ensures GoodLeaf(s', id) {
      assert GoodLeaf(s, id);
    }
  }

  /** Well-formedness is kept, except that a trading account is registered under the key 0. */
  lemma WellFormedKept(s: State, r: Request)
    requires WellFormed(s)
    ensures WellFormed(Do(s, r).state) <==> KeepsAccounts(s, r)
  {
    if r.Place? { PlaceWellFormed(s, r); }
    else if r.End? { EndWellFormed(s, r); }
    else if r.Start? { StartWellFormed(s, r); }
    else if r.Exchange? { ExchangeWellFormed(s, r); }
    else if r.Cancel? { CancelWellFormed(s, r); }
    else if r.Register? { RegisterWellFormed(s, r); }
    else { BalanceWellFormed(s, r); }
  }

  /** No request of the run drops a claim or makes a trading account count as absent. */
  ghost predicate Orderly(s: State, requests: seq<Request>) {
    forall i :: 0 <= i < |requests| ==> OrderlyAt(s, requests, i)
  }

  ghost predicate OrderlyAt(s: State, requests: seq<Request>, i: nat)
    requires i < |requests|
  {
    var before := Run(s, requests[..i]);
    KeepsAccounts(before, requests[i]) && !ForgetsHeld(before, requests[i]) && !LosesOrder(before, requests[i])
  }

  lemma OrderlyFront(s: State, requests: seq<Request>)
    requires requests != [] && Orderly(s, requests)
    ensures Orderly(s, requests[..|requests| - 1])
    ensures OrderlyAt(s, requests, |requests| - 1)
  {
    var front := requests[..|requests| - 1];
    forall i | 0 <= i < |front| ensures OrderlyAt(s, front, i) {
      assert front[..i] == requests[..i];
      assert OrderlyAt(s, requests, i);
    }
  }

  /** In every state of an orderly run, locked funds are what is unsold. */
  lemma {:induction false} LedgerOverRuns(s: State, requests: seq<Request>)
    requires WellFormed(s) && Ledger(s) && Orderly(s, requests)
    ensures WellFormed(Run(s, requests)) && Ledger(Run(s, requests))
  {
    if requests != [] {
      var n := |requests| - 1;
      OrderlyFront(s, requests);
      LedgerOverRuns(s, requests[..n]);
      WellFormedKept(Run(s, requests[..n]), requests[n]);
      LedgerKeptExactly(Run(s, requests[..n]), requests[n]);
    }
  }

  /** The order tree starts with its empty leaf 0; numbering counts from there. */
  function Genesis(): State {
    State(map[], map[], map[0 := EmptyLeaf(0)], 2, None, 0, map[], 0)
  }

  lemma GenesisHolds()
    ensures WellFormed(Genesis()) && Ledger(Genesis())
  {
    forall account, token ensures Balanced(Genesis(), account, token) {
      SumOverSplit(Genesis().orders.Keys, id => ClaimAt(Genesis().orders, id, account, token), 0);
      assert Genesis().orders.Keys - {0} == {};
    }
    assert GoodLeaf(Genesis(), 0);
  }

  // ---------- Locked funds never go negative ----------

  ghost predicate NothingOversold(s: State) {
    && (forall id :: id in s.orders ==> 0 <= Remainder(s.orders[id]))
    && (s.held.Some? ==> 0 <= Remainder(s.held.value))
  }

  /** A new order sells no negative amount, and a fill takes no more than the order has left. */
  predicate Modest(s: State, r: Request) {
    match r
    case Place(_, _, _, amount, _, _, _) => 0 <= amount
    case Exchange(id, sell, _) => id in s.orders ==> sell <= Remainder(s.orders[id])
    case End(_, sell, _) => s.held.Some? ==> sell <= Remainder(s.held.value)
    case _ => true
  }

  lemma NothingOversoldKept(s: State, r: Request)
    requires WellFormed(s) && NothingOversold(s) && Modest(s, r)
    ensures NothingOversold(Do(s, r).state)
  {
  }

  lemma {:induction false} SumOverNonNegative<K>(s: set<K>, f: K -> int)
    requires forall k :: k in s ==> 0 <= f(k)
    ensures 0 <= SumOver(s, f)
    decreases s
  {
    if s != {} {
      var k :| k in s;
      SumOverSplit(s, f, k);
      SumOverNonNegative(s - {k}, f);
    }
  }

  ghost predicate ModestRun(s: State, requests: seq<Request>) {
    forall i :: 0 <= i < |requests| ==> Modest(Run(s, requests[..i]), requests[i])
  }

  lemma {:induction false} NothingOversoldOverRuns(s: State, requests: seq<Request>)
    requires WellFormed(s) && Ledger(s) && Orderly(s, requests)
    requires NothingOversold(s) && ModestRun(s, requests)
    ensures NothingOversold(Run(s, requests))
  {
    if requests != [] {
      var n := |requests| - 1;
      var front := requests[..n];
      OrderlyFront(s, requests);
      forall i | 0 <= i < |front| ensures Modest(Run(s, front[..i]), front[i]) {
        assert front[..i] == requests[..i];
      }
      NothingOversoldOverRuns(s, front);
      LedgerOverRuns(s, front);
      NothingOversoldKept(Run(s, front), requests[n]);
    }
  }

  /** When fills stay within what orders have left, no locked balance is ever negative. */
  lemma {:induction false} LockedNeverNegative(s: State, requests: seq<Request>, account: nat, token: nat)
    requires WellFormed(s) && Ledger(s) && Orderly(s, requests)
    requires NothingOversold(s) && ModestRun(s, requests)
    ensures 0 <= Balance(Run(s, requests), account, token).lockedAmt
  {
    var end := Run(s, requests);
    LedgerOverRuns(s, requests);
    NothingOversoldOverRuns(s, requests);
    SumOverNonNegative(end.orders.Keys, id => ClaimAt(end.orders, id, account, token));
    assert Balanced(end, account, token);
  }

  // ---------- Both mistakes do occur ----------

  lemma {:induction false} OneMoreRequest(s: State, front: seq<Request>, r: Request)
    requires WellFormed(Run(s, front)) && Ledger(Run(s, front)) && KeepsAccounts(Run(s, front), r)
    requires !ForgetsHeld(Run(s, front), r) && !LosesOrder(Run(s, front), r)
    ensures Run(s, front + [r]) == Do(Run(s, front), r).state
    ensures WellFormed(Run(s, front + [r])) && Ledger(Run(s, front + [r]))
  {
    assert (front + [r])[..|front|] == front;
    WellFormedKept(Run(s, front), r);
    LedgerKeptExactly(Run(s, front), r);
  }

  const REGISTER: Request := Register(1, Some(7), 1)
  const DEPOSIT: Request := Deposit(1, 1, 200)
  const FIRST: Request := Place(3, 1, 1, 100, 0, 2, 10)
  const SECOND: Request := Place(4, 1, 1, 50, 0, 2, 5)

  const FIRST_OPEN: OrderLeaf := OrderLeaf(2, 3, SECOND_LIMIT_ORDER, 1, 1, 0, 100, 2, 10, 0, 0)
  const SECOND_OPEN: OrderLeaf := OrderLeaf(3, 4, SECOND_LIMIT_ORDER, 1, 1, 0, 50, 2, 5, 0, 0)

  function Funded(): State {
    State(map[1 := AccountLeaf(7, 0, 1)], map[(1, 1) := TokenLeaf(200, 0)], map[0 := EmptyLeaf(0)], 2, None, 1,
      map[1 := 1], 0)
  }

  function OneOpen(): State {
    State(map[1 := AccountLeaf(7, 1, 2)], map[(1, 1) := TokenLeaf(100, 100)],
          map[0 := EmptyLeaf(0), 2 := FIRST_OPEN], 3, None, 3, map[1 := 2], 1)
  }

  function TwoOpen(): State {
    State(map[1 := AccountLeaf(7, 2, 3)], map[(1, 1) := TokenLeaf(50, 150)],
          map[0 := EmptyLeaf(0), 2 := FIRST_OPEN, 3 := SECOND_OPEN], 4, None, 5, map[1 := 3], 2)
  }

  lemma FundedIs()
    ensures Do(Do(Genesis(), REGISTER).state, DEPOSIT).state == Funded()
  {
    var s := Do(Genesis(), REGISTER).state;
    assert s.accounts == map[1 := AccountLeaf(7, 0, 0)];
    assert Do(s, DEPOSIT).state.accounts == map[1 := AccountLeaf(7, 0, 1)];
  }

  lemma OneOpenIs()
    ensures Do(Funded(), FIRST).state == OneOpen()
  {
    var locked := Lock(Funded(), FIRST, 0);
    assert locked.accounts == map[1 := AccountLeaf(7, 1, 2)] && locked.tokens == OneOpen().tokens;
    assert NewOrder(Funded(), FIRST) == FIRST_OPEN;
  }

  lemma TwoOpenIs()
    ensures Do(OneOpen(), SECOND).state == TwoOpen()
  {
    var locked := Lock(OneOpen(), SECOND, 1);
    assert locked.accounts == map[1 := AccountLeaf(7, 2, 3)] && locked.tokens == TwoOpen().tokens;
    assert NewOrder(OneOpen(), SECOND) == SECOND_OPEN;
    assert Do(OneOpen(), SECOND).state.orders == TwoOpen().orders;
  }

  /** The first order as the taker. */
  function Started(): State {
    TwoOpen().(orders := map[0 := EmptyLeaf(0), 2 := EmptyLeaf(2), 3 := SECOND_OPEN], held := Some(FIRST_OPEN),
      orderRoot := 3)
  }

  lemma StartedIs()
    ensures Do(TwoOpen(), Start(2)).state == Started()
  {
    assert Do(TwoOpen(), Start(2)).state.orders == Started().orders;
  }

  const FIVE: seq<Request> := [REGISTER] + [DEPOSIT] + [FIRST] + [SECOND] + [Start(2)]

  lemma StartedReached()
    ensures Run(Genesis(), FIVE) == Started() && WellFormed(Started()) && Ledger(Started())
  {
    GenesisHolds();
    FundedIs();
    OneOpenIs();
    TwoOpenIs();
    StartedIs();
    assert [] + [REGISTER] == [REGISTER];
    OneMoreRequest(Genesis(), [], REGISTER);
    OneMoreRequest(Genesis(), [REGISTER], DEPOSIT);
    OneMoreRequest(Genesis(), [REGISTER] + [DEPOSIT], FIRST);
    OneMoreRequest(Genesis(), [REGISTER] + [DEPOSIT] + [FIRST], SECOND);
    OneMoreRequest(Genesis(), [REGISTER] + [DEPOSIT] + [FIRST] + [SECOND], Start(2));
  }

  /** From a fresh start five requests lead to a state with the ledger in order that starting the
      other order takes out of order, and so does ending the first, fully filled, in the other's
      name. */
  lemma BothMistakesReached()
    ensures WellFormed(Run(Genesis(), FIVE)) && Ledger(Run(Genesis(), FIVE))
    ensures ForgetsHeld(Run(Genesis(), FIVE), Start(3)) && !Ledger(Do(Run(Genesis(), FIVE), Start(3)).state)
    ensures LosesOrder(Run(Genesis(), FIVE), End(3, 100, 10))
      && !Ledger(Do(Run(Genesis(), FIVE), End(3, 100, 10)).state)
  {
    StartedReached();
    assert ForgetsHeld(Started(), Start(3)) && LosesOrder(Started(), End(3, 100, 10));
    LedgerKeptExactly(Started(), Start(3));
    LedgerKeptExactly(Started(), End(3, 100, 10));
  }
}
