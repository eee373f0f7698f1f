/** What each request means to somebody who only reads the stored leaves: which balance, nonce
    and order moves, by how much, and that nothing else does. The laws read the maps directly
    and say nothing of how the settlement computes them. */
module SettlementLaws {
  import opened Wrappers
  import opened Settlement
  import opened LockLedger

  // ---------- Readers ----------

  function Available(s: State, account: nat, token: nat): int {
    if (account, token) in s.tokens then s.tokens[(account, token)].availableAmt else 0
  }

  function Locked(s: State, account: nat, token: nat): int {
    if (account, token) in s.tokens then s.tokens[(account, token)].lockedAmt else 0
  }

  function Nonce(s: State, account: nat): int {
    if account in s.accounts then s.accounts[account].nonce else 0
  }

  function Updates(s: State, account: nat): nat {
    if account in s.tokenRoots then s.tokenRoots[account] else 0
  }

  /** An account is known when it is stored under a key that is not 0. */
  predicate Known(s: State, account: nat) {
    account in s.accounts && s.accounts[account].tsAddr != 0
  }

  predicate OpenAt(s: State, id: nat) {
    id in s.orders && s.orders[id].sender != 0
  }

  // ---------- Refusals ----------

  /** When a request is refused by one of its lookups, and why. */
  function Refused(s: State, r: Request): Option<Error> {
    match r
    case Register(_, tsAddr, _) => if tsAddr.None? then Some(AccountNotFound) else None
    case Deposit(account, _, _) => if Known(s, account) then None else Some(AccountNotFound)
    case Withdraw(account, _, _) => if Known(s, account) then None else Some(AccountNotFound)
    case Place(_, account, _, _, _, _, _) => if Known(s, account) then None else Some(AccountNotFound)
    case Start(id) => if OpenAt(s, id) then None else Some(OrderNotFound)
    case Exchange(id, _, _) => if OpenAt(s, id) then None else Some(OrderNotFound)
    case End(_, _, _) => if s.held.Some? then None else Some(OrderNotFound)
    case Cancel(account, id) =>
      if !OpenAt(s, id) then Some(OrderNotFound)
      else if s.orders[id].sender != account then Some(AccountMismatch) else None
    case Noop => None
  }

  lemma {:induction false} RefusedExactly(s: State, r: Request)
    requires WellFormed(s)
    ensures Do(s, r).Done? <==> Refused(s, r).None?
    ensures Refused(s, r).Some? ==> Do(s, r) == Failed(Refused(s, r).value, s)
  {
    assert (r.Start? || r.Exchange? || r.Cancel?) && r.orderLeafId in s.orders ==> GoodLeaf(s, r.orderLeafId);
  }

  // ---------- Balances ----------

  /** By how much a request changes what an account has at its disposal of a token. */
  function AvailableChange(s: State, r: Request, account: nat, token: nat): int {
    match r
    case Deposit(a, t, amount) => if a == account && t == token then amount else 0
    case Withdraw(a, t, amount) => if a == account && t == token then -amount else 0
    case Place(_, a, t, amount, _, _, _) => if a == account && t == token then -amount else 0
    case Exchange(id, _, bought) =>
      if id in s.orders && s.orders[id].sender == account && s.orders[id].buyTokenId == token then bought else 0
    case End(_, _, bought) =>
      if s.held.Some? && s.held.value.sender == account && s.held.value.buyTokenId == token then bought else 0
    case Cancel(_, id) =>
      if id in s.orders && s.orders[id].sender == account && s.orders[id].sellTokenId == token
      then s.orders[id].sellAmt - s.orders[id].accumulatedSellAmt else 0
    case _ => 0
  }

  /** By how much it changes what of it is locked. */
  function LockedChange(s: State, r: Request, account: nat, token: nat): int {
    match r
    case Place(_, a, t, amount, _, _, _) => if a == account && t == token then amount else 0
    case Exchange(id, sold, _) =>
      if id in s.orders && s.orders[id].sender == account && s.orders[id].sellTokenId == token then -sold else 0
    case End(_, sold, _) =>
      if s.held.Some? && s.held.value.sender == account && s.held.value.sellTokenId == token then -sold else 0
    case Cancel(_, id) =>
      if id in s.orders && s.orders[id].sender == account && s.orders[id].sellTokenId == token
      then s.orders[id].accumulatedSellAmt - s.orders[id].sellAmt else 0
    case _ => 0
  }

  /** One update moves one balance. */
  lemma {:induction false} UpdateMoves(s: State, a: nat, t: nat, tokenAmt: int, lockedAmt: int,
                                       account: nat, token: nat)
    ensures var s' := UpdateAccountToken(s, a, t, tokenAmt, lockedAmt);
      && Available(s', account, token)
           == Available(s, account, token) + (if a == account && t == token then tokenAmt else 0)
      && Locked(s', account, token)
           == Locked(s, account, token) + (if a == account && t == token then lockedAmt else 0)
  {
  }

  lemma {:induction false} SettleMoves(s: State, o: OrderLeaf, sold: int, bought: int, account: nat, token: nat)
    ensures var s' := Settle(s, o, sold, bought);
      && Available(s', account, token)
           == Available(s, account, token) + (if o.sender == account && o.buyTokenId == token then bought else 0)
      && Locked(s', account, token)
           == Locked(s, account, token) + (if o.sender == account && o.sellTokenId == token then -sold else 0)
  {
    UpdateMoves(s, o.sender, o.buyTokenId, bought, 0, account, token);
    UpdateMoves(Credit(s, o, bought), o.sender, o.sellTokenId, 0, -sold, account, token);
  }

  /** The bought token goes to the order's own sender and the sold one leaves what its sender
      has locked; deposits, withdrawals, placements and cancellations move one balance of one
      account; no other balance of any account moves. */
  lemma {:induction false} BalancesMove(s: State, r: Request, account: nat, token: nat)
    requires Do(s, r).Done?
    ensures Available(Do(s, r).state, account, token)
         == Available(s, account, token) + AvailableChange(s, r, account, token)
    ensures Locked(Do(s, r).state, account, token)
         == Locked(s, account, token) + LockedChange(s, r, account, token)
  {
    if r.Exchange? || r.End? {
      TradeMoves(s, r, account, token);
    } else if r.Place? || r.Cancel? {
      LockMoves(s, r, account, token);
    } else if r.Deposit? {
      UpdateMoves(s, r.account, r.token, r.amount, 0, account, token);
    } else if r.Withdraw? {
      UpdateMoves(s, r.account, r.token, -r.amount, 0, account, token);
    }
  }

  lemma {:induction false} TradeMoves(s: State, r: Request, account: nat, token: nat)
    requires Do(s, r).Done? && (r.Exchange? || r.End?)
    ensures Available(Do(s, r).state, account, token)
         == Available(s, account, token) + AvailableChange(s, r, account, token)
    ensures Locked(Do(s, r).state, account, token)
         == Locked(s, account, token) + LockedChange(s, r, account, token)
  {
    var o := if r.Exchange? then s.orders[r.orderLeafId] else s.held.value;
    SettleMoves(s, o, r.accumulatedSellAmt, r.accumulatedBuyAmt, account, token);
    assert Do(s, r).state.tokens == Settle(s, o, r.accumulatedSellAmt, r.accumulatedBuyAmt).tokens;
  }

  lemma {:induction false} LockMoves(s: State, r: Request, account: nat, token: nat)
    requires Do(s, r).Done? && (r.Place? || r.Cancel?)
    ensures Available(Do(s, r).state, account, token)
         == Available(s, account, token) + AvailableChange(s, r, account, token)
    ensures Locked(Do(s, r).state, account, token)
         == Locked(s, account, token) + LockedChange(s, r, account, token)
  {
    if r.Place? {
      UpdateMoves(s, r.account, r.token, -r.amount, r.amount, account, token);
    } else {
      var o := s.orders[r.orderLeafId];
      UpdateMoves(s, o.sender, o.sellTokenId, o.sellAmt - o.accumulatedSellAmt, o.accumulatedSellAmt - o.sellAmt,
                  account, token);
    }
  }

  // ---------- Accounts ----------

  function NonceChange(r: Request, account: nat): int {
    if (r.Place? || r.Withdraw?) && r.account == account then 1 else 0
  }

  /** Placing and withdrawing raise the acting account's nonce by one, registering sets it to 0,
      and nothing else touches a nonce, not even a refusal that comes late. */
  lemma {:induction false} NonceMoves(s: State, r: Request, account: nat)
    ensures Nonce(Do(s, r).state, account)
         == if Do(s, r).Failed? then Nonce(s, account)
            else if r.Register? && r.account == account then 0
            else Nonce(s, account) + NonceChange(r, account)
  {
  }

  /** How often a request updates the token tree of an account. */
  function TokenUpdates(s: State, r: Request, account: nat): nat {
    match r
    case Deposit(a, _, _) => if a == account then 1 else 0
    case Withdraw(a, _, _) => if a == account then 1 else 0
    case Place(_, a, _, _, _, _, _) => if a == account then 1 else 0
    case Exchange(id, _, _) => if id in s.orders && s.orders[id].sender == account then 2 else 0
    case End(_, _, _) => if s.held.Some? && s.held.value.sender == account then 2 else 0
    case Cancel(a, _) => if a == account then 1 else 0
    case _ => 0
  }

  /** How often it updates the account tree, and the order tree. */
  function AccountUpdates(r: Request): nat {
    match r
    case Deposit(_, _, _) => 1
    case Cancel(_, _) => 1
    case Withdraw(_, _, _) => 2
    case Place(_, _, _, _, _, _, _) => 2
    case Exchange(_, _, _) => 2
    case End(_, _, _) => 2
    case _ => 0
  }

  /** A sold-out taker is not put back, and then only an order named by the request is removed. */
  function OrderUpdates(s: State, r: Request): nat {
    match r
    case Place(_, _, _, _, _, _, _) => 1
    case Start(_) => 1
    case Exchange(_, _, _) => 1
    case Cancel(_, _) => 1
    case End(named, sold, _) =>
      if s.held.Some? && SoldOut(s.held.value, sold) && !(named in s.orders && s.orders[named].reqType != 0)
      then 0 else 1
    case _ => 0
  }

  /** An account keeps its key and is stored with its token tree's root after every update of
      that tree; a registration stores it afresh; every other account leaf stays as it was. */
  lemma {:induction false} AccountsMove(s: State, r: Request, account: nat)
    requires WellFormed(s) && Do(s, r).Done?
    ensures var s' := Do(s, r).state;
      && (account in s'.accounts <==> account in s.accounts || (r.Register? && r.account == account))
      && (account in s'.accounts ==>
            s'.accounts[account]
              == if r.Register? && r.account == account then AccountLeaf(r.tsAddr.value, 0, 0)
                 else AccountLeaf(s.accounts[account].tsAddr, s.accounts[account].nonce + NonceChange(r, account),
                                  if TokenUpdates(s, r, account) > 0 then Updates(s', account)
                                  else s.accounts[account].tokenRoot))
  {
    assert (r.Exchange? || r.Cancel?) && r.orderLeafId in s.orders ==> GoodLeaf(s, r.orderLeafId);
  }

  /** Each update of a tree is counted by its root. */
  lemma {:induction false} RootsMove(s: State, r: Request, account: nat)
    requires WellFormed(s) && Do(s, r).Done?
    ensures var s' := Do(s, r).state;
      && s'.accountRoot == s.accountRoot + AccountUpdates(r)
      && s'.orderRoot == s.orderRoot + OrderUpdates(s, r)
      && Updates(s', account) == Updates(s, account) + TokenUpdates(s, r, account)
  {
    if r.Exchange? || r.End? { TradeRoots(s, r, account); } else { OtherRoots(s, r, account); }
  }

  lemma {:induction false} TradeRoots(s: State, r: Request, account: nat)
    requires WellFormed(s) && Do(s, r).Done? && (r.Exchange? || r.End?)
    ensures var s' := Do(s, r).state;
      && s'.accountRoot == s.accountRoot + 2
      && s'.orderRoot == s.orderRoot + OrderUpdates(s, r)
      && Updates(s', account) == Updates(s, account) + TokenUpdates(s, r, account)
  {
    assert r.Exchange? && r.orderLeafId in s.orders ==> GoodLeaf(s, r.orderLeafId);
  }

  lemma {:induction false} OtherRoots(s: State, r: Request, account: nat)
    requires WellFormed(s) && Do(s, r).Done? && !r.Exchange? && !r.End?
    ensures var s' := Do(s, r).state;
      && s'.accountRoot == s.accountRoot + AccountUpdates(r)
      && s'.orderRoot == s.orderRoot + OrderUpdates(s, r)
      && Updates(s', account) == Updates(s, account) + TokenUpdates(s, r, account)
  {
    assert r.Cancel? && r.orderLeafId in s.orders ==> GoodLeaf(s, r.orderLeafId);
  }

  // ---------- Orders ----------

  function Blank(id: nat): OrderLeaf {
    OrderLeaf(id, 0, 0, 0, 0, 0, 0, 0, 0, 0, 0)
  }

  /** A fill adds what is sold and what is bought to what the order has sold and bought so far. */
  function Grown(o: OrderLeaf, sold: int, bought: int): OrderLeaf {
    OrderLeaf(o.orderLeafId, o.txId, o.reqType, o.sender, o.sellTokenId, o.nonce, o.sellAmt, o.buyTokenId, o.buyAmt,
              o.accumulatedSellAmt + sold, o.accumulatedBuyAmt + bought)
  }

  predicate SoldOut(o: OrderLeaf, sold: int) {
    o.accumulatedSellAmt + sold == o.sellAmt
  }

  /** The leaf that is stored under an id after a request. */
  function LeafAfter(s: State, r: Request, id: nat): OrderLeaf
    requires id in s.orders || (r.Place? && id == s.currentOrderId)
  {
    match r
    case Place(txId, account, token, amount, nonce, buyToken, buyAmt) =>
      if id == s.currentOrderId then OrderLeaf(id, txId, 4, account, token, nonce, amount, buyToken, buyAmt, 0, 0)
      else s.orders[id]
    case Start(taker) => if id == taker then Blank(id) else s.orders[id]
    case Cancel(_, cancelled) => if id == cancelled then Blank(id) else s.orders[id]
    case Exchange(maker, sold, bought) =>
      if id != maker then s.orders[id]
      else if SoldOut(s.orders[id], sold) then Blank(id) else Grown(s.orders[id], sold, bought)
    case End(named, sold, bought) =>
      if s.held.None? then s.orders[id]
      else if SoldOut(s.held.value, sold) then (if id == named then Blank(id) else s.orders[id])
      else if id == s.held.value.orderLeafId then Grown(s.held.value, sold, bought) else s.orders[id]
    case _ => s.orders[id]
  }

  function HeldAfter(s: State, r: Request): Option<OrderLeaf> {
    match r
    case Start(id) => if id in s.orders then Some(s.orders[id]) else s.held
    case End(_, _, _) => None
    case _ => s.held
  }

  /** A new order stands under the next id with what was asked for and nothing filled; a started
      or cancelled one leaves a blank; a filled one grows by exactly the fill, and leaves a blank
      once sold out; a taker that is not sold out comes back grown. No other leaf changes. */
  lemma {:induction false} OrdersMove(s: State, r: Request, id: nat)
    requires WellFormed(s) && Do(s, r).Done?
    ensures var s' := Do(s, r).state;
      && s'.held == HeldAfter(s, r)
      && s'.currentOrderId == s.currentOrderId + (if r.Place? then 1 else 0)
      && (id in s'.orders <==> id in s.orders || (r.Place? && id == s.currentOrderId))
      && (id in s'.orders ==> s'.orders[id] == LeafAfter(s, r, id))
  {
    if r.Exchange? || r.End? { TradeOrders(s, r, id); } else { OtherOrders(s, r, id); }
  }

  lemma {:induction false} TradeOrders(s: State, r: Request, id: nat)
    requires WellFormed(s) && Do(s, r).Done? && (r.Exchange? || r.End?)
    ensures var s' := Do(s, r).state;
      && s'.held == HeldAfter(s, r) && s'.currentOrderId == s.currentOrderId
      && (id in s'.orders <==> id in s.orders)
      && (id in s'.orders ==> s'.orders[id] == LeafAfter(s, r, id))
  {
    assert r.orderLeafId in s.orders ==> GoodLeaf(s, r.orderLeafId);
    assert id in s.orders ==> GoodLeaf(s, id);
  }

  lemma {:induction false} OtherOrders(s: State, r: Request, id: nat)
    requires WellFormed(s) && Do(s, r).Done? && !r.Exchange? && !r.End?
    ensures var s' := Do(s, r).state;
      && s'.held == HeldAfter(s, r)
      && s'.currentOrderId == s.currentOrderId + (if r.Place? then 1 else 0)
      && (id in s'.orders <==> id in s.orders || (r.Place? && id == s.currentOrderId))
      && (id in s'.orders ==> s'.orders[id] == LeafAfter(s, r, id))
  {
    assert (r.Start? || r.Cancel?) && r.orderLeafId in s.orders ==> GoodLeaf(s, r.orderLeafId);
  }

  // ---------- Whole runs ----------

  predicate Accepted(s: State, r: Request) {
    Do(s, r).Done?
  }

  /** How many placements and withdrawals of an account were accepted. */
  function Signed(s: State, requests: seq<Request>, account: nat): nat {
    if requests == [] then 0
    else
      var front, r := requests[..|requests| - 1], requests[|requests| - 1];
      Signed(s, front, account) + if Accepted(Run(s, front), r) && NonceChange(r, account) == 1 then 1 else 0
  }

  predicate NeverRegistered(requests: seq<Request>, account: nat) {
    forall i :: 0 <= i < |requests| ==> !(requests[i].Register? && requests[i].account == account)
  }

  /** Over a run in which it is not registered again, an account's nonce counts its accepted
      placements and withdrawals. */
  lemma {:induction false} NonceCounts(s: State, requests: seq<Request>, account: nat)
    requires NeverRegistered(requests, account)
    ensures Nonce(Run(s, requests), account) == Nonce(s, account) + Signed(s, requests, account)
  {
    if requests != [] {
      var front, r := requests[..|requests| - 1], requests[|requests| - 1];
      NonceCounts(s, front, account);
      NonceMoves(Run(s, front), r, account);
      assert !(requests[|requests| - 1].Register? && requests[|requests| - 1].account == account);
    }
  }

  /** All that a run moved of one balance. */
  function AvailableMoved(s: State, requests: seq<Request>, account: nat, token: nat): int {
    if requests == [] then 0
    else
      var front, r := requests[..|requests| - 1], requests[|requests| - 1];
      var before := Run(s, front);
      AvailableMoved(s, front, account, token)
        + if Refused(before, r).None? then AvailableChange(before, r, account, token) else 0
  }

  function LockedMoved(s: State, requests: seq<Request>, account: nat, token: nat): int {
    if requests == [] then 0
    else
      var front, r := requests[..|requests| - 1], requests[|requests| - 1];
      var before := Run(s, front);
      LockedMoved(s, front, account, token)
        + if Refused(before, r).None? then LockedChange(before, r, account, token) else 0
  }

  ghost predicate KeptThroughout(s: State, requests: seq<Request>) {
    requests == [] || (KeptThroughout(s, requests[..|requests| - 1])
                       && KeepsAccounts(Run(s, requests[..|requests| - 1]), requests[|requests| - 1]))
  }

  /** Over a run every balance is what its accepted requests moved; refused ones move nothing. */
  lemma {:induction false} BalancesOverRuns(s: State, requests: seq<Request>, account: nat, token: nat)
    requires WellFormed(s) && KeptThroughout(s, requests)
    ensures var end := Run(s, requests);
      && WellFormed(end)
      && Available(end, account, token) == Available(s, account, token) + AvailableMoved(s, requests, account, token)
      && Locked(end, account, token) == Locked(s, account, token) + LockedMoved(s, requests, account, token)
  {
    if requests != [] {
      var front, r := requests[..|requests| - 1], requests[|requests| - 1];
      BalancesOverRuns(s, front, account, token);
      var before := Run(s, front);
      WellFormedKept(before, r);
      RefusedExactly(before, r);
      if Refused(before, r).None? { BalancesMove(before, r, account, token); }
    }
  }
}
