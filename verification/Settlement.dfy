/** The settlement state of the sequencer on plain values: balances, order leaves and the one
    taker order that is held out of the tree, and what each kind of request does to them. */
module Settlement {
  import opened Wrappers

  /** A root is named by the number of updates of its tree that led to it: it changes with
      every update, and only then. */
  type Root = nat

  datatype AccountLeaf = AccountLeaf(tsAddr: nat, nonce: int, tokenRoot: Root)

  datatype TokenLeaf = TokenLeaf(availableAmt: int, lockedAmt: int)

  datatype OrderLeaf = OrderLeaf(
    orderLeafId: nat, txId: int, reqType: nat, sender: nat, sellTokenId: nat, nonce: int, sellAmt: int,
    buyTokenId: nat, buyAmt: int, accumulatedSellAmt: int, accumulatedBuyAmt: int)

  datatype State = State(
    accounts: map<nat, AccountLeaf>, tokens: map<(nat, nat), TokenLeaf>, orders: map<nat, OrderLeaf>,
    currentOrderId: nat, held: Option<OrderLeaf>,
    accountRoot: Root, tokenRoots: map<nat, Root>, orderRoot: Root)

  const SECOND_LIMIT_ORDER := 4

  /** A registration comes with the key hash of the account's row, if there is such a row. */
  datatype Request =
    | Register(account: nat, tsAddr: Option<nat>, token: nat)
    | Deposit(account: nat, token: nat, amount: int)
    | Withdraw(account: nat, token: nat, amount: int)
    | Place(txId: int, account: nat, token: nat, amount: int, nonce: int, buyToken: nat, buyAmt: int)
    | Start(orderLeafId: nat)
    | Exchange(orderLeafId: nat, accumulatedSellAmt: int, accumulatedBuyAmt: int)
    | End(orderLeafId: nat, accumulatedSellAmt: int, accumulatedBuyAmt: int)
    | Cancel(account: nat, orderLeafId: nat)
    | Noop

  datatype Error = AccountNotFound | OrderNotFound | AccountMismatch

  datatype Result = Done(state: State) | Failed(error: Error, state: State)

  // ---------- Reading ----------

  /** An account whose address is 0 counts as absent. */
  function GetAccount(s: State, id: nat): Option<AccountLeaf> {
    if id in s.accounts && s.accounts[id].tsAddr != 0 then Some(s.accounts[id]) else None
  }

  /** The stored account leaf, or an empty one. */
  function AccountLeafOf(s: State, id: nat): AccountLeaf {
    if id in s.accounts then s.accounts[id] else AccountLeaf(0, 0, 0)
  }

  function Balance(s: State, account: nat, token: nat): TokenLeaf {
    if (account, token) in s.tokens then s.tokens[(account, token)] else TokenLeaf(0, 0)
  }

  function TokenRootOf(s: State, account: nat): Root {
    if account in s.tokenRoots then s.tokenRoots[account] else 0
  }

  function GetObsOrder(s: State, id: nat): Option<OrderLeaf> {
    if id in s.orders then Some(s.orders[id]) else None
  }

  function EmptyLeaf(id: nat): OrderLeaf {
    OrderLeaf(id, 0, 0, 0, 0, 0, 0, 0, 0, 0, 0)
  }

  // ---------- Writing ----------

  function UpdateAccountToken(s: State, account: nat, token: nat, tokenAmt: int, lockedAmt: int): State {
    var leaf := Balance(s, account, token);
    var root := TokenRootOf(s, account) + 1;
    s.(tokens := s.tokens[(account, token) := TokenLeaf(leaf.availableAmt + tokenAmt, leaf.lockedAmt + lockedAmt)],
       tokenRoots := s.tokenRoots[account := root],
       accounts := s.accounts[account := AccountLeafOf(s, account).(tokenRoot := root)],
       accountRoot := s.accountRoot + 1)
  }

  function UpdateAccountNonce(s: State, account: nat, nonce: int): State {
    s.(accounts := s.accounts[account := AccountLeafOf(s, account).(nonce := nonce)], accountRoot := s.accountRoot + 1)
  }

  /** Registering stores the leaf without touching any root. */
  function AddAccount(s: State, account: nat, tsAddr: nat): State {
    s.(accounts := s.accounts[account := AccountLeaf(tsAddr, 0, 0)])
  }

  function UpdateObsOrder(s: State, leaf: OrderLeaf): State {
    s.(orders := s.orders[leaf.orderLeafId := leaf], orderRoot := s.orderRoot + 1)
  }

  function AddObsOrder(s: State, leaf: OrderLeaf): State {
    UpdateObsOrder(s, leaf).(currentOrderId := s.currentOrderId + 1)
  }

  /** Removing an order empties its leaf; there is nothing to remove in an absent or empty one. */
  predicate Removable(s: State, id: nat) {
    id in s.orders && s.orders[id].reqType != 0
  }

  function RemoveObsOrder(s: State, id: nat): State
    requires Removable(s, id)
  {
    UpdateObsOrder(s, EmptyLeaf(s.orders[id].orderLeafId))
  }

  function Filled(o: OrderLeaf, sell: int, buy: int): OrderLeaf {
    o.(accumulatedSellAmt := o.accumulatedSellAmt + sell, accumulatedBuyAmt := o.accumulatedBuyAmt + buy)
  }

  /** What a fill does to the balances of the order's sender: the bought token is credited
      first, then the sold one is taken from what is locked. */
  function Credit(s: State, o: OrderLeaf, buy: int): State {
    UpdateAccountToken(s, o.sender, o.buyTokenId, buy, 0)
  }

  function Settle(s: State, o: OrderLeaf, sell: int, buy: int): State {
    UpdateAccountToken(Credit(s, o, buy), o.sender, o.sellTokenId, 0, -sell)
  }

  // ---------- Requests ----------

  function NewOrder(s: State, r: Request): OrderLeaf
    requires r.Place?
  {
    OrderLeaf(s.currentOrderId, r.txId, SECOND_LIMIT_ORDER, r.account, r.token, r.nonce, r.amount, r.buyToken,
      r.buyAmt, 0, 0)
  }

  /** The balances and nonce after an order is placed, before its leaf is added. */
  function Lock(s: State, r: Request, nonce: int): State
    requires r.Place?
  {
    UpdateAccountNonce(UpdateAccountToken(s, r.account, r.token, -r.amount, r.amount), r.account, nonce + 1)
  }

  function DoPlace(s: State, r: Request): Result
    requires r.Place?
  {
    match GetAccount(s, r.account)
    case None => Failed(AccountNotFound, s)
    case Some(from) => Done(AddObsOrder(Lock(s, r, from.nonce), NewOrder(s, r)))
  }

  /** The order is held before its sender is looked up, so a failed lookup leaves it held. */
  function DoStart(s: State, r: Request): Result
    requires r.Start?
  {
    match GetObsOrder(s, r.orderLeafId)
    case None => Failed(OrderNotFound, s)
    case Some(order) =>
      if order.sender == 0 then Failed(OrderNotFound, s)
      else
        var s1 := s.(held := Some(order));
        if GetAccount(s1, order.sender).None? then Failed(AccountNotFound, s1)
        else if !Removable(s1, r.orderLeafId) then Failed(OrderNotFound, s1)
        else Done(RemoveObsOrder(s1, r.orderLeafId))
  }

  function DoExchange(s: State, r: Request): Result
    requires r.Exchange?
  {
    match GetObsOrder(s, r.orderLeafId)
    case None => Failed(OrderNotFound, s)
    case Some(maker) =>
      if maker.sender == 0 then Failed(OrderNotFound, s)
      else if GetAccount(s, maker.sender).None? then Failed(AccountNotFound, s)
      else
        var s1 := Settle(s, maker, r.accumulatedSellAmt, r.accumulatedBuyAmt);
        var filled := Filled(maker, r.accumulatedSellAmt, r.accumulatedBuyAmt);
        if filled.accumulatedSellAmt != filled.sellAmt then Done(UpdateObsOrder(s1, filled))
        else if Removable(s1, r.orderLeafId) then Done(RemoveObsOrder(s1, r.orderLeafId))
        else Failed(OrderNotFound, s1)
  }

  /** A fully filled taker is not put back. The removal that is asked for instead names the
      request's leaf; its failure is not waited for and goes unnoticed. */
  function DoEnd(s: State, r: Request): Result
    requires r.End?
  {
    match s.held
    case None => Failed(OrderNotFound, s)
    case Some(taker) =>
      if taker.sender == 0 then Failed(OrderNotFound, s)
      else if GetAccount(s, taker.sender).None? then Failed(AccountNotFound, s)
      else Done(PutBack(Settle(s, taker, r.accumulatedSellAmt, r.accumulatedBuyAmt), taker, r).(held := None))
  }

  function PutBack(s: State, taker: OrderLeaf, r: Request): State
    requires r.End?
  {
    var filled := Filled(taker, r.accumulatedSellAmt, r.accumulatedBuyAmt);
    if filled.accumulatedSellAmt != filled.sellAmt then UpdateObsOrder(s, filled)
    else if Removable(s, r.orderLeafId) then RemoveObsOrder(s, r.orderLeafId)
    else s
  }

  function DoCancel(s: State, r: Request): Result
    requires r.Cancel?
  {
    match GetObsOrder(s, r.orderLeafId)
    case None => Failed(OrderNotFound, s)
    case Some(order) =>
      if order.sender == 0 then Failed(OrderNotFound, s)
      else if GetAccount(s, order.sender).None? then Failed(AccountNotFound, s)
      else if r.account != order.sender then Failed(AccountMismatch, s)
      else
        var s1 := Refund(s, order);
        if Removable(s1, order.orderLeafId) then Done(RemoveObsOrder(s1, order.orderLeafId))
        else Failed(OrderNotFound, s1)
  }

  function Refund(s: State, o: OrderLeaf): State {
    UpdateAccountToken(s, o.sender, o.sellTokenId, o.sellAmt - o.accumulatedSellAmt,
      -(o.sellAmt - o.accumulatedSellAmt))
  }

  function Do(s: State, r: Request): Result {
    match r
    case Register(account, tsAddr, _) =>
      if tsAddr.None? then Failed(AccountNotFound, s) else Done(AddAccount(s, account, tsAddr.value))
    case Deposit(account, token, amount) =>
      if GetAccount(s, account).None? then Failed(AccountNotFound, s)
      else Done(UpdateAccountToken(s, account, token, amount, 0))
    case Withdraw(account, token, amount) =>
      (match GetAccount(s, account)
       case None => Failed(AccountNotFound, s)
       case Some(from) => Done(UpdateAccountNonce(UpdateAccountToken(s, account, token, -amount, 0), account,
         from.nonce + 1)))
    case Place(_, _, _, _, _, _, _) => DoPlace(s, r)
    case Start(_) => DoStart(s, r)
    case Exchange(_, _, _) => DoExchange(s, r)
    case End(_, _, _) => DoEnd(s, r)
    case Cancel(_, _) => DoCancel(s, r)
    case Noop => Done(s)
  }

  function Run(s: State, requests: seq<Request>): State {
    if requests == [] then s
    else Do(Run(s, requests[..|requests| - 1]), requests[|requests| - 1]).state
  }
}
