/** Settlement creates and destroys no tokens: what the accounts own, available and locked
    together, changes only by deposits, withdrawals and the legs of trades, and the legs of a
    complete round cancel exactly when what the taker and the makers were given balances. */
module Conservation {
  import opened Wrappers
  import opened Sums
  import opened Settlement

  function OwnedAt(tokens: map<(nat, nat), TokenLeaf>, key: (nat, nat), token: nat): int {
    if key in tokens && key.1 == token then tokens[key].availableAmt + tokens[key].lockedAmt else 0
  }

  /** All accounts' holdings of a token. */
  ghost function TokenTotal(s: State, token: nat): int {
    SumOver(s.tokens.Keys, key => OwnedAt(s.tokens, key, token))
  }

  function When(condition: bool, amount: int): int {
    if condition then amount else 0
  }

  lemma UpdateTotal(s: State, account: nat, t: nat, tokenAmt: int, lockedAmt: int, token: nat)
    ensures TokenTotal(UpdateAccountToken(s, account, t, tokenAmt, lockedAmt), token)
         == TokenTotal(s, token) + When(t == token, tokenAmt + lockedAmt)
  {
    var s' := UpdateAccountToken(s, account, t, tokenAmt, lockedAmt);
    assert s'.tokens.Keys == s.tokens.Keys + {(account, t)};
    SumOverChange(s.tokens.Keys, key => OwnedAt(s.tokens, key, token), key => OwnedAt(s'.tokens, key, token),
      (account, t));
  }

  function Deposited(s: State, r: Request, token: nat): int {
    if r.Deposit? && GetAccount(s, r.account).Some? then When(r.token == token, r.amount) else 0
  }

  function Withdrawn(s: State, r: Request, token: nat): int {
    if r.Withdraw? && GetAccount(s, r.account).Some? then When(r.token == token, r.amount) else 0
  }

  /** The order whose trade a request settles, if it settles one. */
  function Trader(s: State, r: Request): Option<OrderLeaf> {
    var order := if r.Exchange? then GetObsOrder(s, r.orderLeafId) else if r.End? then s.held else None;
    if order.Some? && order.value.sender != 0 && GetAccount(s, order.value.sender).Some? then order else None
  }

  function Leg(o: OrderLeaf, sell: int, buy: int, token: nat): int {
    When(o.buyTokenId == token, buy) - When(o.sellTokenId == token, sell)
  }

  /** What the request puts in flight: tokens handed to its trader less tokens taken. */
  function InFlight(s: State, r: Request, token: nat): int {
    var trader := Trader(s, r);
    if trader.None? then 0 else Leg(trader.value, r.accumulatedSellAmt, r.accumulatedBuyAmt, token)
  }

  lemma SettleTotal(s: State, o: OrderLeaf, sell: int, buy: int, token: nat)
    ensures TokenTotal(Settle(s, o, sell, buy), token) == TokenTotal(s, token) + Leg(o, sell, buy, token)
  {
    UpdateTotal(s, o.sender, o.buyTokenId, buy, 0, token);
    UpdateTotal(Credit(s, o, buy), o.sender, o.sellTokenId, 0, -sell, token);
  }

  lemma TradeTotal(s: State, r: Request, token: nat)
    requires r.Exchange? || r.End?
    ensures TokenTotal(Do(s, r).state, token) == TokenTotal(s, token) + InFlight(s, r, token)
  {
    if r.Exchange? {
      if r.orderLeafId in s.orders {
        SettleTotal(s, s.orders[r.orderLeafId], r.accumulatedSellAmt, r.accumulatedBuyAmt, token);
      }
    } else if s.held.Some? {
      SettleTotal(s, s.held.value, r.accumulatedSellAmt, r.accumulatedBuyAmt, token);
    }
  }

  lemma LockTotal(s: State, r: Request, token: nat)
    requires r.Place? || r.Cancel? || r.Start?
    ensures TokenTotal(Do(s, r).state, token) == TokenTotal(s, token)
  {
    if r.Place? {
      UpdateTotal(s, r.account, r.token, -r.amount, r.amount, token);
    } else if r.Cancel? && r.orderLeafId in s.orders {
      var o := s.orders[r.orderLeafId];
      UpdateTotal(s, o.sender, o.sellTokenId, o.sellAmt - o.accumulatedSellAmt, -(o.sellAmt - o.accumulatedSellAmt),
        token);
    }
  }

  lemma CashTotal(s: State, r: Request, token: nat)
    requires r.Deposit? || r.Withdraw? || r.Register? || r.Noop?
    ensures TokenTotal(Do(s, r).state, token) == TokenTotal(s, token) + Deposited(s, r, token) - Withdrawn(s, r, token)
  {
    if r.Deposit? {
      UpdateTotal(s, r.account, r.token, r.amount, 0, token);
    } else if r.Withdraw? {
      UpdateTotal(s, r.account, r.token, -r.amount, 0, token);
    }
  }

  /** What one request does to a token's total, whether it succeeds or fails. */
  lemma RequestTotal(s: State, r: Request, token: nat)
    ensures TokenTotal(Do(s, r).state, token)
         == TokenTotal(s, token) + Deposited(s, r, token) - Withdrawn(s, r, token) + InFlight(s, r, token)
  {
    if r.Exchange? || r.End? {
      TradeTotal(s, r, token);
    } else if r.Place? || r.Cancel? || r.Start? {
      LockTotal(s, r, token);
    } else {
      CashTotal(s, r, token);
    }
  }

  // ---------- Whole runs ----------

  function NetDeposits(s: State, requests: seq<Request>, token: nat): int {
    if requests == [] then 0
    else
      var n := |requests| - 1;
      var before := Run(s, requests[..n]);
      NetDeposits(s, requests[..n], token)
        + Deposited(before, requests[n], token) - Withdrawn(before, requests[n], token)
  }

  function NetInFlight(s: State, requests: seq<Request>, token: nat): int {
    if requests == [] then 0
    else
      var n := |requests| - 1;
      NetInFlight(s, requests[..n], token) + InFlight(Run(s, requests[..n]), requests[n], token)
  }

  /** In every state of every run, whatever fails on the way. */
  lemma {:induction false} TotalOverRuns(s: State, requests: seq<Request>, token: nat)
    ensures TokenTotal(Run(s, requests), token)
         == TokenTotal(s, token) + NetDeposits(s, requests, token) + NetInFlight(s, requests, token)
  {
    if requests != [] {
      var n := |requests| - 1;
      TotalOverRuns(s, requests[..n], token);
      RequestTotal(Run(s, requests[..n]), requests[n], token);
    }
  }

  // ---------- One round of trading ----------

  datatype Fill = Fill(maker: nat, sell: int, buy: int)

  function Exchanges(fills: seq<Fill>): (requests: seq<Request>)
    ensures |requests| == |fills|
  {
    if fills == [] then []
    else
      var f := fills[|fills| - 1];
      Exchanges(fills[..|fills| - 1]) + [Exchange(f.maker, f.sell, f.buy)]
  }

  function SumSell(fills: seq<Fill>): int {
    if fills == [] then 0 else SumSell(fills[..|fills| - 1]) + fills[|fills| - 1].sell
  }

  function SumBuy(fills: seq<Fill>): int {
    if fills == [] then 0 else SumBuy(fills[..|fills| - 1]) + fills[|fills| - 1].buy
  }

  /** The maker can be settled and trades the taker's two tokens the other way round. */
  predicate Crosses(s: State, maker: nat, taker: OrderLeaf) {
    && maker in s.orders && s.orders[maker].sender != 0 && GetAccount(s, s.orders[maker].sender).Some?
    && s.orders[maker].sellTokenId == taker.buyTokenId && s.orders[maker].buyTokenId == taker.sellTokenId
  }

  ghost predicate AllCross(s: State, fills: seq<Fill>, taker: OrderLeaf) {
    forall i :: 0 <= i < |fills| ==> Crosses(Run(s, Exchanges(fills[..i])), fills[i].maker, taker)
  }

  lemma MakerInFlight(s: State, f: Fill, taker: OrderLeaf, token: nat)
    requires Crosses(s, f.maker, taker)
    ensures var r := Exchange(f.maker, f.sell, f.buy);
      && InFlight(s, r, token) == When(taker.sellTokenId == token, f.buy) - When(taker.buyTokenId == token, f.sell)
      && Deposited(s, r, token) == Withdrawn(s, r, token) == 0
      && Do(s, r).state.held == s.held
  {
  }

  /** One more request at the end of a run. */
  lemma {:induction false} RunSnoc(s: State, requests: seq<Request>, r: Request, token: nat)
    ensures Run(s, requests + [r]) == Do(Run(s, requests), r).state
    ensures NetInFlight(s, requests + [r], token)
      == NetInFlight(s, requests, token) + InFlight(Run(s, requests), r, token)
    ensures NetDeposits(s, requests + [r], token)
         == NetDeposits(s, requests, token)
           + Deposited(Run(s, requests), r, token) - Withdrawn(Run(s, requests), r, token)
  {
    assert (requests + [r])[..|requests|] == requests;
  }

  lemma {:induction false} AllCrossFront(s: State, fills: seq<Fill>, taker: OrderLeaf)
    requires fills != [] && AllCross(s, fills, taker)
    ensures AllCross(s, fills[..|fills| - 1], taker)
    ensures Crosses(Run(s, Exchanges(fills[..|fills| - 1])), fills[|fills| - 1].maker, taker)
  {
    var front := fills[..|fills| - 1];
    forall i | 0 <= i < |front| ensures Crosses(Run(s, Exchanges(front[..i])), front[i].maker, taker) {
      assert front[..i] == fills[..i];
    }
  }

  lemma {:induction false} MakersInFlight(s: State, fills: seq<Fill>, taker: OrderLeaf, token: nat)
    requires AllCross(s, fills, taker)
    ensures NetInFlight(s, Exchanges(fills), token)
         == When(taker.sellTokenId == token, SumBuy(fills)) - When(taker.buyTokenId == token, SumSell(fills))
    ensures NetDeposits(s, Exchanges(fills), token) == 0
  {
    if fills != [] {
      var front, f := fills[..|fills| - 1], fills[|fills| - 1];
      AllCrossFront(s, fills, taker);
      MakersInFlight(s, front, taker, token);
      MakerInFlight(Run(s, Exchanges(front)), f, taker, token);
      RunSnoc(s, Exchanges(front), Exchange(f.maker, f.sell, f.buy), token);
    }
  }

  lemma {:induction false} MakersLeaveHeld(s: State, fills: seq<Fill>, taker: OrderLeaf)
    requires AllCross(s, fills, taker)
    ensures Run(s, Exchanges(fills)).held == s.held
  {
    if fills != [] {
      var front, f := fills[..|fills| - 1], fills[|fills| - 1];
      AllCrossFront(s, fills, taker);
      MakersLeaveHeld(s, front, taker);
      MakerInFlight(Run(s, Exchanges(front)), f, taker, 0);
      RunSnoc(s, Exchanges(front), Exchange(f.maker, f.sell, f.buy), 0);
    }
  }

  lemma {:induction false} RunConcat(s: State, a: seq<Request>, b: seq<Request>, token: nat)
    ensures Run(s, a + b) == Run(Run(s, a), b)
    ensures NetInFlight(s, a + b, token) == NetInFlight(s, a, token) + NetInFlight(Run(s, a), b, token)
    ensures NetDeposits(s, a + b, token) == NetDeposits(s, a, token) + NetDeposits(Run(s, a), b, token)
  {
    if b == [] {
      assert a + b == a;
    } else {
      var n := |b| - 1;
      RunConcat(s, a, b[..n], token);
      assert (a + b)[..|a + b| - 1] == a + b[..n];
    }
  }

  /** A whole round: a taker is started, its makers are settled in turn, and the taker is
      ended with what it sold and bought in all. */
  function Round(taker: nat, fills: seq<Fill>, sold: int, bought: int): seq<Request> {
    [Start(taker)] + Exchanges(fills) + [End(taker, sold, bought)]
  }

  /** The taker's order gets held, every maker crosses it, and it can be settled in the end. */
  ghost predicate GoodRound(s: State, taker: nat, fills: seq<Fill>) {
    var started := Run(s, [Start(taker)]);
    && taker in s.orders && started.held == Some(s.orders[taker])
    && AllCross(started, fills, s.orders[taker])
    && GetAccount(Run(started, Exchanges(fills)), s.orders[taker].sender).Some? && s.orders[taker].sender != 0
  }

  lemma {:induction false} StartInFlight(s: State, taker: nat, token: nat)
    ensures NetInFlight(s, [Start(taker)], token) == 0 == NetDeposits(s, [Start(taker)], token)
  {
    assert [Start(taker)][..0] == [];
    assert NetInFlight(s, [], token) == 0 == NetDeposits(s, [], token);
  }

  lemma EndInFlight(s: State, id: nat, sold: int, bought: int, token: nat)
    requires s.held.Some? && s.held.value.sender != 0 && GetAccount(s, s.held.value.sender).Some?
    ensures InFlight(s, End(id, sold, bought), token) == Leg(s.held.value, sold, bought, token)
    ensures Deposited(s, End(id, sold, bought), token) == 0 == Withdrawn(s, End(id, sold, bought), token)
  {
  }

  lemma {:induction false} RoundInFlight(s: State, taker: nat, fills: seq<Fill>, sold: int, bought: int, token: nat)
    requires GoodRound(s, taker, fills)
    ensures var o := s.orders[taker];
      NetInFlight(s, Round(taker, fills, sold, bought), token)
        == When(o.sellTokenId == token, SumBuy(fills)) - When(o.buyTokenId == token, SumSell(fills))
          + Leg(o, sold, bought, token)
    ensures NetDeposits(s, Round(taker, fills, sold, bought), token) == 0
  {
    var o, opening := s.orders[taker], [Start(taker)] + Exchanges(fills);
    var started := Run(s, [Start(taker)]);
    StartInFlight(s, taker, token);
    MakersInFlight(started, fills, o, token);
    MakersLeaveHeld(started, fills, o);
    RunConcat(s, [Start(taker)], Exchanges(fills), token);
    assert NetInFlight(s, opening, token)
      == When(o.sellTokenId == token, SumBuy(fills)) - When(o.buyTokenId == token, SumSell(fills));
    EndInFlight(Run(s, opening), taker, sold, bought, token);
    RunSnoc(s, opening, End(taker, sold, bought), token);
    assert NetInFlight(s, Round(taker, fills, sold, bought), token)
      == NetInFlight(s, opening, token) + Leg(o, sold, bought, token);
  }

  /** By how much a round changes what all accounts own of a token. */
  ghost function RoundChange(s: State, taker: nat, fills: seq<Fill>, sold: int, bought: int, token: nat): int {
    TokenTotal(Run(s, Round(taker, fills, sold, bought)), token) - TokenTotal(s, token)
  }

  lemma {:induction false} RoundChangeIs(s: State, taker: nat, fills: seq<Fill>, sold: int, bought: int, token: nat)
    requires GoodRound(s, taker, fills)
    ensures var o := s.orders[taker];
      RoundChange(s, taker, fills, sold, bought, token)
        == When(o.sellTokenId == token, SumBuy(fills)) - When(o.buyTokenId == token, SumSell(fills))
          + Leg(o, sold, bought, token)
  {
    RoundInFlight(s, taker, fills, sold, bought, token);
    TotalOverRuns(s, Round(taker, fills, sold, bought), token);
  }

  /** What a round has to meet: the taker sells what the makers buy and buys what they sell, or,
      if it trades a token for itself, the differences agree. */
  predicate RoundMeets(o: OrderLeaf, fills: seq<Fill>, sold: int, bought: int) {
    if o.sellTokenId == o.buyTokenId then sold - bought == SumBuy(fills) - SumSell(fills)
    else sold == SumBuy(fills) && bought == SumSell(fills)
  }

  /** After the taker has ended, nothing is left in flight for any token exactly when the round
      meets. */
  lemma RoundBalancesExactly(s: State, taker: nat, fills: seq<Fill>, sold: int, bought: int)
    requires GoodRound(s, taker, fills)
    ensures (forall token :: RoundChange(s, taker, fills, sold, bought, token) == 0)
       <==> RoundMeets(s.orders[taker], fills, sold, bought)
  {
    var o, meets := s.orders[taker], RoundMeets(s.orders[taker], fills, sold, bought);
    forall token
      ensures meets ==> RoundChange(s, taker, fills, sold, bought, token) == 0
    {
      RoundChangeIs(s, taker, fills, sold, bought, token);
    }
    if !meets {
      RoundChangeIs(s, taker, fills, sold, bought, if sold == SumBuy(fills) then o.buyTokenId else o.sellTokenId);
    }
  }

  /** Cancelling an order right after placing it gives back exactly the balances from before. */
  lemma CancelUndoesPlace(s: State, r: Request, account: nat, token: nat)
    requires r.Place? && Do(s, r).Done? && r.account != 0
    ensures var s' := Do(Do(s, r).state, Cancel(r.account, s.currentOrderId)).state;
      && Balance(s', account, token) == Balance(s, account, token)
      && s'.orders == s.orders[s.currentOrderId := EmptyLeaf(s.currentOrderId)]
      && s'.held == s.held
  {
    var placed := Do(s, r).state;
    assert placed.orders[s.currentOrderId] == NewOrder(s, r);
    assert GetAccount(placed, r.account).Some?;
  }
}
