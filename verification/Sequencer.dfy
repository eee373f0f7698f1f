/** The sequencer: it settles requests against the stored leaves and records, for the proof of
    the block, every leaf and root before and after it is touched. */
module Sequencer {
  import opened Wrappers
  import opened Settlement
  import opened LockLedger
  import opened WitnessTrace

  class SequencerConsumer {
    /** The repositories, and the order held between the start and the end of a round. */
    var store: State

    /** What the packing library takes. */
    const packs: Packer

    var running: bool
    var oriTxId: int
    var currentTxLogs: seq<Request>
    var currentAccountRootFlow: seq<Root>
    var currentOrderRootFlow: seq<Root>
    var accountTrace: Trace<AccountLeaf>
    var tokenTrace: Trace<TokenLeaf>
    var orderTrace: Trace<OrderLeaf>

    /** The recorded entries are whole and stand side by side; without an open block there are
        none. */
    ghost predicate Valid()
      reads this
    {
      && Shaped(Recorded())
      && (!running ==> Recorded() == EMPTY_BOOKS && currentAccountRootFlow == [] && currentOrderRootFlow == [])
    }

    ghost function Recorded(): Books
      reads this`accountTrace, this`tokenTrace, this`orderTrace, this`currentTxLogs
    {
      Books(accountTrace, tokenTrace, orderTrace, currentTxLogs)
    }

    /** The block as the fields hold it. */
    ghost function OpenedBlock(): Block
      reads this
    {
      Block(Recorded(), currentAccountRootFlow, currentOrderRootFlow, oriTxId)
    }

    /** The block a transaction joins: the open one, or a new one. */
    ghost function JoinedBlock(): Block
      reads this
    {
      if running then OpenedBlock() else OpenBlock(store, oriTxId)
    }

    function LatestId(): int
      reads this`oriTxId, this`currentTxLogs
    {
      oriTxId + |currentTxLogs|
    }

    constructor (packs: Packer)
      ensures Valid() && store == Genesis() && !running && oriTxId == 0 && this.packs == packs
    {
      this.packs := packs;
      store := Genesis();
      running, oriTxId, currentTxLogs, currentAccountRootFlow, currentOrderRootFlow := false, 0, [], [], [];
      accountTrace, tokenTrace, orderTrace := EMPTY_ACCOUNT_TRACE, EMPTY_TOKEN_TRACE, EMPTY_ORDER_TRACE;
    }

    // ---------- Leaves ----------

    method UpdateAccountToken(leafId: nat, tokenAddr: nat, tokenAmt: int, lockedAmt: int)
      modifies this`store
      ensures store == Settlement.UpdateAccountToken(old(store), leafId, tokenAddr, tokenAmt, lockedAmt)
    {
      var tokenInfo := Balance(store, leafId, tokenAddr);
      var newAvlAmt := tokenInfo.availableAmt + tokenAmt;
      var newLktAmt := tokenInfo.lockedAmt + lockedAmt;
      store := store.(tokens := store.tokens[(leafId, tokenAddr) := TokenLeaf(newAvlAmt, newLktAmt)]);
      var tokenRoot := TokenRootOf(store, leafId) + 1;
      store := store.(tokenRoots := store.tokenRoots[leafId := tokenRoot]);
      store := store.(accounts := store.accounts[leafId := AccountLeafOf(store, leafId).(tokenRoot := tokenRoot)],
                      accountRoot := store.accountRoot + 1);
    }

    method UpdateAccountNonce(leafId: nat, nonce: int)
      requires GetAccount(store, leafId).Some?
      modifies this`store
      ensures store == Settlement.UpdateAccountNonce(old(store), leafId, nonce)
      ensures GetAccount(store, leafId) == Some(AccountLeafOf(old(store), leafId).(nonce := nonce))
      ensures forall id :: id != leafId ==> GetAccount(store, id) == GetAccount(old(store), id)
      ensures store.tokens == old(store).tokens && store.orders == old(store).orders
      ensures store.accountRoot > old(store).accountRoot && store.orderRoot == old(store).orderRoot
    {
      store := store.(accounts := store.accounts[leafId := store.accounts[leafId].(nonce := nonce)],
                      accountRoot := store.accountRoot + 1);
    }

    method UpdateObsOrder(order: OrderLeaf)
      modifies this`store
      ensures store == Settlement.UpdateObsOrder(old(store), order)
      ensures forall id ::
        GetObsOrder(store, id) == if id == order.orderLeafId then Some(order) else GetObsOrder(old(store), id)
      ensures store.tokens == old(store).tokens && store.accounts == old(store).accounts
      ensures store.orderRoot > old(store).orderRoot && store.accountRoot == old(store).accountRoot
    {
      store := store.(orders := store.orders[order.orderLeafId := order], orderRoot := store.orderRoot + 1);
    }

    method AddObsOrder(order: OrderLeaf)
      modifies this`store
      ensures store == Settlement.AddObsOrder(old(store), order)
    {
      UpdateObsOrder(order);
      store := store.(currentOrderId := store.currentOrderId + 1);
    }

    method RemoveObsOrder(leafId: nat) returns (ok: bool)
      modifies this`store
      ensures ok == Removable(old(store), leafId)
      ensures store == if ok then Settlement.RemoveObsOrder(old(store), leafId) else old(store)
    {
      ok := leafId in store.orders && store.orders[leafId].reqType != 0;
      if ok {
        UpdateObsOrder(EmptyLeaf(store.orders[leafId].orderLeafId));
      }
    }

    // ---------- Recorders ----------

    method TokenBeforeUpdate(accountLeafId: nat, tokenAddr: nat)
      modifies this`tokenTrace
      ensures tokenTrace == Opened(old(tokenTrace), tokenAddr, TokenRootBefore(store, accountLeafId),
                                   TokenBefore(store, accountLeafId, tokenAddr))
    {
      var ids := tokenTrace.leafId;
      if |ids| > 0 && |ids[|ids| - 1]| == 1 {
        ids := ids[..|ids| - 1] + [ids[|ids| - 1] + [tokenAddr]];
      } else {
        ids := ids + [[tokenAddr]];
      }
      var leaf, root := TokenLeaf(0, 0), 0;
      if GetAccount(store, accountLeafId).Some? {
        leaf, root := Balance(store, accountLeafId, tokenAddr), TokenRootOf(store, accountLeafId);
      }
      tokenTrace := tokenTrace.(leafId := ids, oriLeaf := tokenTrace.oriLeaf + [leaf],
                                rootFlow := tokenTrace.rootFlow + [[root]]);
    }

    method TokenAfterUpdate(accountLeafId: nat, tokenAddr: nat)
      requires GetAccount(store, accountLeafId).Some? && tokenTrace.rootFlow != []
      modifies this`tokenTrace
      ensures tokenTrace == Closed(old(tokenTrace), TokenRootOf(store, accountLeafId),
        Balance(store, accountLeafId, tokenAddr))
    {
      tokenTrace := Closed(tokenTrace, TokenRootOf(store, accountLeafId), Balance(store, accountLeafId, tokenAddr));
    }

    method AccountBeforeUpdate(accountLeafId: nat)
      modifies this`accountTrace
      ensures accountTrace == Opened(old(accountTrace), accountLeafId, store.accountRoot,
        AccountBefore(store, accountLeafId))
    {
      var ids := accountTrace.leafId;
      if |ids| > 0 && |ids[|ids| - 1]| == 1 {
        ids := ids[..|ids| - 1] + [ids[|ids| - 1] + [accountLeafId]];
      } else {
        ids := ids + [[accountLeafId]];
      }
      var leaf := AccountLeaf(0, 0, TokenRootOf(store, accountLeafId));
      if GetAccount(store, accountLeafId).Some? {
        leaf := AccountLeafOf(store, accountLeafId);
      }
      accountTrace := accountTrace.(leafId := ids, oriLeaf := accountTrace.oriLeaf + [leaf],
                                    rootFlow := accountTrace.rootFlow + [[store.accountRoot]]);
    }

    method AccountAfterUpdate(accountLeafId: nat)
      requires GetAccount(store, accountLeafId).Some? && accountTrace.rootFlow != []
      modifies this`accountTrace
      ensures accountTrace == Closed(old(accountTrace), store.accountRoot, AccountLeafOf(store, accountLeafId))
    {
      accountTrace := Closed(accountTrace, store.accountRoot, store.accounts[accountLeafId]);
    }

    method AccountAndTokenBeforeUpdate(accountLeafId: nat, tokenAddr: nat)
      modifies this`accountTrace, this`tokenTrace
      ensures accountTrace == Opened(old(accountTrace), accountLeafId, store.accountRoot,
        AccountBefore(store, accountLeafId))
      ensures tokenTrace == Opened(old(tokenTrace), tokenAddr, TokenRootBefore(store, accountLeafId),
                                   TokenBefore(store, accountLeafId, tokenAddr))
    {
      AccountBeforeUpdate(accountLeafId);
      TokenBeforeUpdate(accountLeafId, tokenAddr);
    }

    /** Works on absent accounts too, which read as empty leaves. The token flow is closed at
        the position of the last account flow: the two have the same length whenever this runs. */
    method AccountAndTokenAfterUpdate(accountLeafId: nat, tokenAddr: nat)
      requires |tokenTrace.rootFlow| == |accountTrace.rootFlow| > 0
      modifies this`accountTrace, this`tokenTrace
      ensures accountTrace == Closed(old(accountTrace), store.accountRoot, AccountLeafOf(store, accountLeafId))
      ensures tokenTrace == Closed(old(tokenTrace), TokenRootOf(store, accountLeafId),
        Balance(store, accountLeafId, tokenAddr))
    {
      var idx := |accountTrace.rootFlow| - 1;
      accountTrace := Closed(accountTrace, store.accountRoot, AccountLeafOf(store, accountLeafId));
      var flow := tokenTrace.rootFlow;
      assert flow[idx + 1..] == [];
      tokenTrace := tokenTrace.(newLeaf := tokenTrace.newLeaf + [Balance(store, accountLeafId, tokenAddr)],
                                rootFlow := flow[..idx] + [flow[idx] + [TokenRootOf(store, accountLeafId)]]
                                  + flow[idx + 1..]);
    }

    method OrderBeforeUpdate(orderLeafId: nat)
      modifies this`orderTrace
      ensures orderTrace == OpenedOne(old(orderTrace), orderLeafId, store.orderRoot, OrderSeen(store, orderLeafId))
    {
      orderTrace := orderTrace.(leafId := orderTrace.leafId + [[orderLeafId]],
                                oriLeaf := orderTrace.oriLeaf + [OrderSeen(store, orderLeafId)],
                                rootFlow := orderTrace.rootFlow + [[store.orderRoot]]);
    }

    method OrderAfterUpdate(orderLeafId: nat)
      requires orderTrace.rootFlow != []
      modifies this`orderTrace
      ensures orderTrace == Closed(old(orderTrace), store.orderRoot, OrderSeen(store, orderLeafId))
    {
      orderTrace := Closed(orderTrace, store.orderRoot, OrderSeen(store, orderLeafId));
    }

    // ---------- Requests ----------

    /** The last steps: the chunks are encoded, the key is looked up, the request is logged. */
    method Finish(tx: Tx, txOffset: int, makerBuyAmt: int) returns (error: Option<TxError>)
      modifies this`currentTxLogs
      ensures error == LateSteps(tx, txOffset, makerBuyAmt, packs)
      ensures currentTxLogs == if error.None? then old(currentTxLogs) + [tx.request] else old(currentTxLogs)
    {
      if !EncodesChunks(tx, txOffset, makerBuyAmt, packs) {
        return Some(NotEncoded);
      }
      if NeedsKey(tx.request) && !tx.keyFound {
        return Some(KeyNotFound);
      }
      currentTxLogs := currentTxLogs + [tx.request];
      error := None;
    }

    /** One more account and token entry around nothing. */
    method RecordUntouched(accountLeafId: nat, tokenAddr: nat)
      requires |tokenTrace.rootFlow| == |accountTrace.rootFlow|
      modifies this`accountTrace, this`tokenTrace
      ensures accountTrace == Record(old(accountTrace), AccountEntry(store, store, accountLeafId))
      ensures tokenTrace == Record(old(tokenTrace), TokenEntry(store, store, accountLeafId, tokenAddr))
    {
      AccountAndTokenBeforeUpdate(accountLeafId, tokenAddr);
      AccountAndTokenAfterUpdate(accountLeafId, tokenAddr);
    }

    /** The entry of an order leaf that the request does not touch. */
    method RecordOrderUntouched(orderLeafId: nat)
      modifies this`orderTrace
      ensures orderTrace == AppendOne(old(orderTrace), OrderEntry(store, store, orderLeafId))
    {
      OrderBeforeUpdate(orderLeafId);
      OrderAfterUpdate(orderLeafId);
      OneRecordIsOne(old(orderTrace), OrderEntry(store, store, orderLeafId));
    }

    /** Amounts and nonce of a new order, around one account and token entry. */
    method LockFunds(r: Request, newNonce: int)
      requires r.Place? && GetAccount(store, r.account).Some? && |tokenTrace.rootFlow| == |accountTrace.rootFlow|
      modifies this`store, this`accountTrace, this`tokenTrace
      ensures store == Settlement.UpdateAccountNonce(
        Settlement.UpdateAccountToken(old(store), r.account, r.token, -r.amount, r.amount), r.account, newNonce)
      ensures accountTrace == Record(old(accountTrace), AccountEntry(old(store), store, r.account))
      ensures tokenTrace == Record(old(tokenTrace), TokenEntry(old(store), store, r.account, r.token))
    {
      AccountAndTokenBeforeUpdate(r.account, r.token);
      UpdateAccountToken(r.account, r.token, -r.amount, r.amount);
      UpdateAccountNonce(r.account, newNonce);
      AccountAndTokenAfterUpdate(r.account, r.token);
    }

    /** The new order's leaf, around one order entry. */
    method StoreOrder(order: OrderLeaf)
      requires order.orderLeafId == store.currentOrderId
      modifies this`store, this`orderTrace
      ensures store == Settlement.AddObsOrder(old(store), order)
      ensures orderTrace == AppendOne(old(orderTrace), OrderEntry(old(store), store, order.orderLeafId))
    {
      OrderBeforeUpdate(order.orderLeafId);
      AddObsOrder(order);
      OrderAfterUpdate(order.orderLeafId);
      OneRecordIsOne(old(orderTrace), OrderEntry(old(store), store, order.orderLeafId));
    }

    method PlaceOrder(r: Request, nonce: int)
      requires r.Place? && Shaped(Recorded())
      requires GetAccount(store, r.account).Some?
      modifies this`store, this`accountTrace, this`tokenTrace, this`orderTrace
      ensures store == Settlement.AddObsOrder(Lock(old(store), r, nonce), NewOrder(old(store), r))
      ensures Recorded()
           == Touched(old(Recorded()), BalanceEntries(old(store), store, r.account, r.token, old(store).currentOrderId))
    {
      LockFunds(r, nonce + 1);
      ghost var locked := store;
      RecordUntouched(r.account, r.token);
      StoreOrder(OrderLeaf(store.currentOrderId, r.txId, SECOND_LIMIT_ORDER, r.account, r.token, r.nonce, r.amount,
                           r.buyToken, r.buyAmt, 0, 0));
      BalanceBooks(old(Recorded()), old(store), locked, store, r.account, r.token, old(store).currentOrderId);
    }

    method DoSecondLimitOrder(tx: Tx) returns (error: Option<TxError>)
      requires tx.request.Place? && Shaped(Recorded())
      modifies this`store, this`accountTrace, this`tokenTrace, this`orderTrace, this`currentTxLogs
      ensures store == Do(old(store), tx.request).state && error == Refusal(old(store), tx, old(LatestId()), packs)
      ensures Recorded() == BooksAfter(old(Recorded()), old(store), tx, old(LatestId()), packs)
    {
      var from := GetAccount(store, tx.request.account);
      if from.None? {
        return Some(Rejected(AccountNotFound));
      }
      PlaceOrder(tx.request, from.value.nonce);
      error := Finish(tx, 0, 0);
    }

    /** The entry of an order leaf that is emptied. */
    method RecordOrderRemoval(leafId: nat)
      requires Removable(store, leafId)
      modifies this`store, this`orderTrace
      ensures store == Settlement.RemoveObsOrder(old(store), leafId)
      ensures orderTrace == AppendOne(old(orderTrace), OrderEntry(old(store), store, leafId))
    {
      OrderBeforeUpdate(leafId);
      var ok := RemoveObsOrder(leafId);
      OrderAfterUpdate(leafId);
      OneRecordIsOne(old(orderTrace), OrderEntry(old(store), store, leafId));
    }

    /** Nothing is touched but the order leaf, which is emptied. */
    method RecordRemoval(sender: nat, sellTokenId: nat, leafId: nat)
      requires Shaped(Recorded()) && Removable(store, leafId)
      modifies this`store, this`accountTrace, this`tokenTrace, this`orderTrace
      ensures store == Settlement.RemoveObsOrder(old(store), leafId)
      ensures Recorded() == Touched(old(Recorded()), BalanceEntries(old(store), store, sender, sellTokenId, leafId))
    {
      RecordUntouched(sender, sellTokenId);
      RecordUntouched(sender, sellTokenId);
      RecordOrderRemoval(leafId);
      BalanceBooks(old(Recorded()), old(store), old(store), store, sender, sellTokenId, leafId);
    }

    method DoSecondLimitStart(tx: Tx) returns (error: Option<TxError>)
      requires tx.request.Start? && Shaped(Recorded()) && WellFormed(store)
      modifies this`store, this`accountTrace, this`tokenTrace, this`orderTrace, this`currentTxLogs
      ensures store == Do(old(store), tx.request).state && error == Refusal(old(store), tx, old(LatestId()), packs)
      ensures Recorded() == BooksAfter(old(Recorded()), old(store), tx, old(LatestId()), packs)
    {
      var orderLeafId := tx.request.orderLeafId;
      var found := GetObsOrder(store, orderLeafId);
      if found.None? {
        return Some(Rejected(OrderNotFound));
      }
      var order := found.value;
      if order.sender == 0 {
        return Some(Rejected(OrderNotFound));
      }
      assert GoodLeaf(store, orderLeafId);
      store := store.(held := Some(order));
      var from := GetAccount(store, order.sender);
      if from.None? {
        return Some(Rejected(AccountNotFound));
      }
      RecordRemoval(order.sender, order.sellTokenId, orderLeafId);
      error := Finish(tx, LatestId() - order.txId, 0);
    }

    /** Both legs of a fill, each around a token entry, within one account entry. */
    method SettleTrade(order: OrderLeaf, sell: int, buy: int)
      requires Shaped(Recorded()) && GetAccount(store, order.sender).Some?
      modifies this`store, this`accountTrace, this`tokenTrace
      ensures store == Settle(old(store), order, sell, buy)
      ensures accountTrace == Record(Record(old(accountTrace), AccountEntry(old(store), store, order.sender)),
                                     AccountEntry(store, store, order.sender))
      ensures var credited := Credit(old(store), order, buy);
        tokenTrace == Record(Record(old(tokenTrace), TokenEntry(old(store), credited, order.sender, order.buyTokenId)),
                             TokenEntry(credited, store, order.sender, order.sellTokenId))
    {
      AccountBeforeUpdate(order.sender);
      SettleLeg(order.sender, order.buyTokenId, buy, 0);
      SettleLeg(order.sender, order.sellTokenId, 0, -sell);
      AccountAfterUpdate(order.sender);
      RecordAccountUntouched(order.sender);
    }

    /** One more account entry around nothing. */
    method RecordAccountUntouched(accountLeafId: nat)
      requires GetAccount(store, accountLeafId).Some?
      modifies this`accountTrace
      ensures accountTrace == Record(old(accountTrace), AccountEntry(store, store, accountLeafId))
    {
      AccountBeforeUpdate(accountLeafId);
      AccountAfterUpdate(accountLeafId);
    }

    method SettleLeg(accountLeafId: nat, tokenAddr: nat, tokenAmt: int, lockedAmt: int)
      requires GetAccount(store, accountLeafId).Some?
      modifies this`store, this`tokenTrace
      ensures store == Settlement.UpdateAccountToken(old(store), accountLeafId, tokenAddr, tokenAmt, lockedAmt)
      ensures GetAccount(store, accountLeafId).Some?
      ensures tokenTrace == Record(old(tokenTrace), TokenEntry(old(store), store, accountLeafId, tokenAddr))
    {
      TokenBeforeUpdate(accountLeafId, tokenAddr);
      UpdateAccountToken(accountLeafId, tokenAddr, tokenAmt, lockedAmt);
      TokenAfterUpdate(accountLeafId, tokenAddr);
    }

    /** The maker's leaf after a fill: emptied when all is sold, else rewritten. */
    method UpdateMaker(filled: OrderLeaf, leafId: nat)
      requires Removable(store, leafId)
      modifies this`store, this`orderTrace
      ensures store == if filled.accumulatedSellAmt != filled.sellAmt then Settlement.UpdateObsOrder(old(store), filled)
                       else Settlement.RemoveObsOrder(old(store), leafId)
      ensures orderTrace == AppendOne(old(orderTrace), OrderEntry(old(store), store, leafId))
    {
      OrderBeforeUpdate(leafId);
      var isAllSellAmtMatched := filled.accumulatedSellAmt == filled.sellAmt;
      if isAllSellAmtMatched {
        var ok := RemoveObsOrder(leafId);
      } else {
        UpdateObsOrder(filled);
      }
      OrderAfterUpdate(leafId);
      OneRecordIsOne(old(orderTrace), OrderEntry(old(store), store, leafId));
    }

    method FillMaker(maker: OrderLeaf, r: Request)
      requires r.Exchange? && Shaped(Recorded()) && GetAccount(store, maker.sender).Some?
        && Removable(store, r.orderLeafId)
      modifies this`store, this`accountTrace, this`tokenTrace, this`orderTrace
      ensures var settled := Settle(old(store), maker, r.accumulatedSellAmt, r.accumulatedBuyAmt);
        var filled := Filled(maker, r.accumulatedSellAmt, r.accumulatedBuyAmt);
        store == if filled.accumulatedSellAmt != filled.sellAmt then Settlement.UpdateObsOrder(settled, filled)
                 else Settlement.RemoveObsOrder(settled, r.orderLeafId)
      ensures Recorded()
           == Touched(old(Recorded()), TradeEntries(old(store), store, maker, r.accumulatedBuyAmt, r.orderLeafId))
    {
      SettleTrade(maker, r.accumulatedSellAmt, r.accumulatedBuyAmt);
      UpdateMaker(Filled(maker, r.accumulatedSellAmt, r.accumulatedBuyAmt), r.orderLeafId);
      TradeBooks(old(Recorded()), old(store), store, maker, r.accumulatedSellAmt, r.accumulatedBuyAmt, r.orderLeafId);
    }

    method DoSecondLimitExchange(tx: Tx) returns (error: Option<TxError>)
      requires tx.request.Exchange? && Shaped(Recorded()) && WellFormed(store)
      modifies this`store, this`accountTrace, this`tokenTrace, this`orderTrace, this`currentTxLogs
      ensures store == Do(old(store), tx.request).state && error == Refusal(old(store), tx, old(LatestId()), packs)
      ensures Recorded() == BooksAfter(old(Recorded()), old(store), tx, old(LatestId()), packs)
    {
      var found := GetObsOrder(store, tx.request.orderLeafId);
      if found.None? {
        return Some(Rejected(OrderNotFound));
      }
      var makerOrder := found.value;
      if makerOrder.sender == 0 {
        return Some(Rejected(OrderNotFound));
      }
      var makerAcc := GetAccount(store, makerOrder.sender);
      if makerAcc.None? {
        return Some(Rejected(AccountNotFound));
      }
      assert GoodLeaf(store, tx.request.orderLeafId);
      FillMaker(makerOrder, tx.request);
      error := Finish(tx, LatestId() - makerOrder.txId, makerOrder.buyAmt);
    }

    /** The taker's leaf after its round. What the removal does is not waited for. */
    method PutBackTaker(filled: OrderLeaf, leafId: nat)
      modifies this`store, this`orderTrace
      ensures store == if filled.accumulatedSellAmt != filled.sellAmt then Settlement.UpdateObsOrder(old(store), filled)
                       else if Removable(old(store), leafId) then Settlement.RemoveObsOrder(old(store), leafId)
                       else old(store)
      ensures orderTrace == AppendOne(old(orderTrace), OrderEntry(old(store), store, leafId))
    {
      OrderBeforeUpdate(leafId);
      var isAllSellAmtMatched := filled.accumulatedSellAmt == filled.sellAmt;
      if isAllSellAmtMatched {
        var ignored := RemoveObsOrder(leafId);
      } else {
        UpdateObsOrder(filled);
      }
      OrderAfterUpdate(leafId);
      OneRecordIsOne(old(orderTrace), OrderEntry(old(store), store, leafId));
    }

    method FillTaker(taker: OrderLeaf, r: Request)
      requires r.End? && Shaped(Recorded()) && GetAccount(store, taker.sender).Some?
      modifies this`store, this`accountTrace, this`tokenTrace, this`orderTrace
      ensures store == PutBack(Settle(old(store), taker, r.accumulatedSellAmt, r.accumulatedBuyAmt), taker, r)
      ensures Recorded()
           == Touched(old(Recorded()), TradeEntries(old(store), store, taker, r.accumulatedBuyAmt, r.orderLeafId))
    {
      SettleTrade(taker, r.accumulatedSellAmt, r.accumulatedBuyAmt);
      PutBackTaker(Filled(taker, r.accumulatedSellAmt, r.accumulatedBuyAmt), r.orderLeafId);
      TradeBooks(old(Recorded()), old(store), store, taker, r.accumulatedSellAmt, r.accumulatedBuyAmt, r.orderLeafId);
    }

    /** The taker is let go before the key lookup, and encoding its chunks does not fail. */
    method DoSecondLimitEnd(tx: Tx) returns (error: Option<TxError>)
      requires tx.request.End? && Shaped(Recorded())
      modifies this`store, this`accountTrace, this`tokenTrace, this`orderTrace, this`currentTxLogs
      ensures store == Do(old(store), tx.request).state && error == Refusal(old(store), tx, old(LatestId()), packs)
      ensures Recorded() == BooksAfter(old(Recorded()), old(store), tx, old(LatestId()), packs)
    {
      if store.held.None? {
        return Some(Rejected(OrderNotFound));
      }
      var takerOrder := store.held.value;
      if takerOrder.sender == 0 {
        return Some(Rejected(OrderNotFound));
      }
      var takerAcc := GetAccount(store, takerOrder.sender);
      if takerAcc.None? {
        return Some(Rejected(AccountNotFound));
      }
      FillTaker(takerOrder, tx.request);
      store := store.(held := None);
      error := Finish(tx, 0, 0);
    }

    method RefundOrder(order: OrderLeaf, leafId: nat)
      requires Shaped(Recorded()) && Removable(store, leafId)
      modifies this`store, this`accountTrace, this`tokenTrace, this`orderTrace
      ensures store == Settlement.RemoveObsOrder(Refund(old(store), order), leafId)
      ensures Recorded()
           == Touched(old(Recorded()), BalanceEntries(old(store), store, order.sender, order.sellTokenId, leafId))
    {
      var refundAmount := order.sellAmt - order.accumulatedSellAmt;
      AccountAndTokenBeforeUpdate(order.sender, order.sellTokenId);
      UpdateAccountToken(order.sender, order.sellTokenId, refundAmount, -refundAmount);
      AccountAndTokenAfterUpdate(order.sender, order.sellTokenId);
      RecordUntouched(order.sender, order.sellTokenId);
      ghost var refunded := store;
      RecordOrderRemoval(leafId);
      BalanceBooks(old(Recorded()), old(store), refunded, store, order.sender, order.sellTokenId, leafId);
    }

    method DoCancelOrder(tx: Tx) returns (error: Option<TxError>)
      requires tx.request.Cancel? && Shaped(Recorded()) && WellFormed(store)
      modifies this`store, this`accountTrace, this`tokenTrace, this`orderTrace, this`currentTxLogs
      ensures store == Do(old(store), tx.request).state && error == Refusal(old(store), tx, old(LatestId()), packs)
      ensures Recorded() == BooksAfter(old(Recorded()), old(store), tx, old(LatestId()), packs)
    {
      var found := GetObsOrder(store, tx.request.orderLeafId);
      if found.None? {
        return Some(Rejected(OrderNotFound));
      }
      var order := found.value;
      if order.sender == 0 {
        return Some(Rejected(OrderNotFound));
      }
      if GetAccount(store, order.sender).None? {
        return Some(Rejected(AccountNotFound));
      }
      if tx.request.account != order.sender {
        return Some(Rejected(AccountMismatch));
      }
      assert GoodLeaf(store, tx.request.orderLeafId);
      RefundOrder(order, order.orderLeafId);
      error := Finish(tx, 0, 0);
    }

    method DoNoop() returns (error: Option<TxError>)
      requires Shaped(Recorded())
      modifies this`accountTrace, this`tokenTrace, this`orderTrace, this`currentTxLogs
      ensures error == None
      ensures Recorded() == Logged(Touched(old(Recorded()), BalanceEntries(store, store, 0, 0, 0)), Noop)
    {
      RecordUntouched(0, 0);
      RecordUntouched(0, 0);
      RecordOrderUntouched(0);
      currentTxLogs := currentTxLogs + [Noop];
      error := None;
      BalanceBooks(old(Recorded()), store, store, store, 0, 0, 0);
    }

    /** The amount, inside one account and token entry and around one order entry. */
    method CreditAccount(r: Request)
      requires r.Deposit? && |tokenTrace.rootFlow| == |accountTrace.rootFlow|
      modifies this`store, this`accountTrace, this`tokenTrace, this`orderTrace
      ensures store == Settlement.UpdateAccountToken(old(store), r.account, r.token, r.amount, 0)
      ensures accountTrace == Record(old(accountTrace), AccountEntry(old(store), store, r.account))
      ensures tokenTrace == Record(old(tokenTrace), TokenEntry(old(store), store, r.account, r.token))
      ensures orderTrace == AppendOne(old(orderTrace), OrderEntry(old(store), store, 0))
    {
      AccountAndTokenBeforeUpdate(r.account, r.token);
      OrderBeforeUpdate(0);
      UpdateAccountToken(r.account, r.token, r.amount, 0);
      AccountAndTokenAfterUpdate(r.account, r.token);
      OrderAfterUpdate(0);
      OneRecordIsOne(old(orderTrace), OrderEntry(old(store), store, 0));
    }

    method DepositFunds(r: Request)
      requires r.Deposit? && Shaped(Recorded())
      modifies this`store, this`accountTrace, this`tokenTrace, this`orderTrace
      ensures store == Settlement.UpdateAccountToken(old(store), r.account, r.token, r.amount, 0)
      ensures Recorded() == Touched(old(Recorded()), BalanceEntries(old(store), store, r.account, r.token, 0))
    {
      CreditAccount(r);
      RecordUntouched(r.account, r.token);
      BalanceBooks(old(Recorded()), old(store), store, store, r.account, r.token, 0);
    }

    method DoDeposit(tx: Tx) returns (error: Option<TxError>)
      requires tx.request.Deposit? && Shaped(Recorded())
      modifies this`store, this`accountTrace, this`tokenTrace, this`orderTrace, this`currentTxLogs
      ensures store == Do(old(store), tx.request).state && error == Refusal(old(store), tx, old(LatestId()), packs)
      ensures Recorded() == BooksAfter(old(Recorded()), old(store), tx, old(LatestId()), packs)
    {
      if GetAccount(store, tx.request.account).None? {
        return Some(Rejected(AccountNotFound));
      }
      DepositFunds(tx.request);
      error := Finish(tx, 0, 0);
    }

    method RegisterAccount(account: nat, hashedTsPubKey: nat, token: nat)
      requires Shaped(Recorded())
      modifies this`store, this`accountTrace, this`tokenTrace, this`orderTrace
      ensures store == AddAccount(old(store), account, hashedTsPubKey)
      ensures Recorded() == Touched(old(Recorded()), BalanceEntries(old(store), store, account, token, 0))
    {
      AccountAndTokenBeforeUpdate(account, token);
      store := store.(accounts := store.accounts[account := AccountLeaf(hashedTsPubKey, 0, 0)]);
      AccountAndTokenAfterUpdate(account, token);
      RecordUntouched(account, token);
      RecordOrderUntouched(0);
      BalanceBooks(old(Recorded()), old(store), store, store, account, token, 0);
    }

    method DoRegister(tx: Tx) returns (error: Option<TxError>)
      requires tx.request.Register? && Shaped(Recorded())
      modifies this`store, this`accountTrace, this`tokenTrace, this`orderTrace, this`currentTxLogs
      ensures store == Do(old(store), tx.request).state && error == Refusal(old(store), tx, old(LatestId()), packs)
      ensures Recorded() == BooksAfter(old(Recorded()), old(store), tx, old(LatestId()), packs)
    {
      var hashedTsPubKey := tx.request.tsAddr;
      if hashedTsPubKey.None? {
        return Some(Rejected(AccountNotFound));
      }
      RegisterAccount(tx.request.account, hashedTsPubKey.value, tx.request.token);
      error := Finish(tx, 0, 0);
    }

    method WithdrawFunds(r: Request, newNonce: int)
      requires r.Withdraw? && Shaped(Recorded()) && GetAccount(store, r.account).Some?
      modifies this`store, this`accountTrace, this`tokenTrace, this`orderTrace
      ensures store == Settlement.UpdateAccountNonce(
        Settlement.UpdateAccountToken(old(store), r.account, r.token, -r.amount, 0), r.account, newNonce)
      ensures Recorded() == Touched(old(Recorded()), BalanceEntries(old(store), store, r.account, r.token, 0))
    {
      AccountAndTokenBeforeUpdate(r.account, r.token);
      UpdateAccountToken(r.account, r.token, -r.amount, 0);
      UpdateAccountNonce(r.account, newNonce);
      AccountAndTokenAfterUpdate(r.account, r.token);
      RecordUntouched(r.account, r.token);
      RecordOrderUntouched(0);
      BalanceBooks(old(Recorded()), old(store), store, store, r.account, r.token, 0);
    }

    method DoWithdraw(tx: Tx) returns (error: Option<TxError>)
      requires tx.request.Withdraw? && Shaped(Recorded())
      modifies this`store, this`accountTrace, this`tokenTrace, this`orderTrace, this`currentTxLogs
      ensures store == Do(old(store), tx.request).state && error == Refusal(old(store), tx, old(LatestId()), packs)
      ensures Recorded() == BooksAfter(old(Recorded()), old(store), tx, old(LatestId()), packs)
    {
      var from := GetAccount(store, tx.request.account);
      if from.None? {
        return Some(Rejected(AccountNotFound));
      }
      WithdrawFunds(tx.request, from.value.nonce + 1);
      error := Finish(tx, 0, 0);
    }

    // ---------- Transactions ----------

    /** Opens a block: its root flows start with the roots as they are. */
    method StartRollup()
      requires Valid() && !running
      modifies this`running, this`currentAccountRootFlow, this`currentOrderRootFlow
      ensures running && OpenedBlock() == OpenBlock(store, oriTxId)
    {
      running := true;
      currentAccountRootFlow := currentAccountRootFlow + [store.accountRoot];
      currentOrderRootFlow := currentOrderRootFlow + [store.orderRoot];
    }

    method Dispatch(tx: Tx) returns (error: Option<TxError>)
      requires Shaped(Recorded()) && WellFormed(store)
      modifies this`store, this`accountTrace, this`tokenTrace, this`orderTrace, this`currentTxLogs
      ensures store == After(old(store), tx)
      ensures tx.request.Cancel? ==> error == Some(UnknownRequestType) && Recorded() == old(Recorded())
      ensures !tx.request.Cancel? ==>
        && error == Refusal(old(store), tx, old(LatestId()), packs)
        && Recorded() == BooksAfter(old(Recorded()), old(store), tx, old(LatestId()), packs)
    {
      match tx.request {
        case Register(_, _, _) => error := DoRegister(tx);
        case Deposit(_, _, _) => error := DoDeposit(tx);
        case Withdraw(_, _, _) => error := DoWithdraw(tx);
        case Place(_, _, _, _, _, _, _) => error := DoSecondLimitOrder(tx);
        case Start(_) => error := DoSecondLimitStart(tx);
        case Exchange(_, _, _) => error := DoSecondLimitExchange(tx);
        case End(_, _, _) => error := DoSecondLimitEnd(tx);
        case Noop => error := DoNoop();
        case Cancel(_, _) => return Some(UnknownRequestType);
      }
    }

    /** A transaction in the open block. The roots after it join the block's flows unless it is
        refused. */
    method ProcessTransaction(tx: Tx) returns (error: Option<TxError>)
      requires Shaped(Recorded()) && WellFormed(store)
      modifies this`store, this`accountTrace, this`tokenTrace, this`orderTrace, this`currentTxLogs,
               this`currentAccountRootFlow, this`currentOrderRootFlow
      ensures store == After(old(store), tx)
      ensures OpenedBlock() == Extend(old(OpenedBlock()), old(store), tx, packs)
      ensures error == TxRefusal(old(store), tx, old(LatestId()), packs)
    {
      error := Dispatch(tx);
      if error.None? {
        currentAccountRootFlow := currentAccountRootFlow + [store.accountRoot];
        currentOrderRootFlow := currentOrderRootFlow + [store.orderRoot];
      }
    }

    /** One transaction of the open block, a new one being opened if there is none. */
    method DoTransaction(tx: Tx) returns (error: Option<TxError>)
      requires Valid() && WellFormed(store)
      modifies this
      ensures Valid() && running && (WellFormed(store) <==> KeepsAccounts(old(store), tx.request))
      ensures store == After(old(store), tx) && OpenedBlock() == Extend(old(JoinedBlock()), old(store), tx, packs)
      ensures error == TxRefusal(old(store), tx, old(LatestId()), packs)
      ensures Traced(old(JoinedBlock()), old(store)) ==>
        (Traced(OpenedBlock(), store) <==> error != Some(NotEncoded) && error != Some(KeyNotFound))
    {
      ghost var before, joined := store, JoinedBlock();
      if !running {
        StartRollup();
      }
      assert LatestTxId(joined) == LatestId();
      error := ProcessTransaction(tx);
      TransactionKeeps(joined, before, tx, packs, OpenedBlock(), store, error);
    }
  }
}
