/** Who is served first, who is returned and what an order earns on average, told in terms of
    the orders' own fields. */
module AuctionPriority {
  import opened Wrappers
  import opened Sums
  import opened JsBigInt
  import opened StableSort
  import opened AuctionMatching
  import opened AuctionCells
  import opened AuctionEngine
  import opened AuctionGuarantees

  // ---------- Service order ----------

  /** The orders of a list that were created at a time, in list order. */
  function CreatedAt(orders: seq<AuctionOrder>, time: int): seq<AuctionOrder> {
    if orders == [] then []
    else (if orders[0].createdTime == time then [orders[0]] else []) + CreatedAt(orders[1..], time)
  }

  lemma {:induction false} CreatedAtIsPick(orders: seq<AuctionOrder>, time: int)
    ensures CreatedAt(orders, time) == Pick(orders, TimeOf, time)
  {
    if orders != [] { CreatedAtIsPick(orders[1..], time); }
  }

  /** Borrowers are served by the time they were created, and those of one time in list order;
      each is served as often as it is listed. */
  lemma {:induction false} ServedByTime(orders: seq<AuctionOrder>)
    ensures var served := Sort(orders, TimeOf);
      && multiset(served) == multiset(orders)
      && (forall i, j :: 0 <= i < j < |served| ==> served[i].createdTime <= served[j].createdTime)
      && (forall time :: CreatedAt(served, time) == CreatedAt(orders, time))
  {
    var served := Sort(orders, TimeOf);
    SortIsStable(orders, TimeOf);
    SortMultiset(orders, TimeOf);
    forall i, j | 0 <= i < j < |served| ensures served[i].createdTime <= served[j].createdTime {
      assert TimeOf(served[i]) <= TimeOf(served[j]);
    }
    forall time ensures CreatedAt(served, time) == CreatedAt(orders, time) {
      CreatedAtIsPick(served, time);
      CreatedAtIsPick(orders, time);
    }
  }

  /** The orders of a list that were placed at a rate, in list order. */
  function PlacedAt(orders: seq<AuctionOrder>, rate: int): seq<AuctionOrder> {
    if orders == [] then []
    else (if orders[0].interestRate == rate then [orders[0]] else []) + PlacedAt(orders[1..], rate)
  }

  lemma {:induction false} PlacedAtIsPick(orders: seq<AuctionOrder>, rate: int)
    ensures PlacedAt(orders, rate) == Pick(orders, RateOf, rate)
  {
    if orders != [] { PlacedAtIsPick(orders[1..], rate); }
  }

  /** Lenders stand by the rate they ask for, and those of one rate in list order. */
  lemma {:induction false} LendersByRate(orders: seq<AuctionOrder>)
    ensures var lenders := Sort(orders, RateOf);
      && multiset(lenders) == multiset(orders)
      && (forall i, j :: 0 <= i < j < |lenders| ==> lenders[i].interestRate <= lenders[j].interestRate)
      && (forall rate :: PlacedAt(lenders, rate) == PlacedAt(orders, rate))
  {
    var lenders := Sort(orders, RateOf);
    SortIsStable(orders, RateOf);
    SortMultiset(orders, RateOf);
    forall i, j | 0 <= i < j < |lenders| ensures lenders[i].interestRate <= lenders[j].interestRate {
      assert RateOf(lenders[i]) <= RateOf(lenders[j]);
    }
    forall rate ensures PlacedAt(lenders, rate) == PlacedAt(orders, rate) {
      PlacedAtIsPick(lenders, rate);
      PlacedAtIsPick(orders, rate);
    }
  }

  lemma AmountsOfRecords(bs: seq<AuctionOrder>, lenders: seq<AuctionOrder>, fills: seq<seq<Detail>>, b: nat, l: nat)
    requires RoundDone(bs, lenders, fills) && b < |bs| && l < |fills[b]|
    ensures fills[b][l].matchedAmount == Cell(Outcome(bs, lenders), b, l)
  {
    assert RecordsOf(fills[b], b, Outcome(bs, lenders)[b], lenders);
  }

  lemma SoonerIsBefore(bs: seq<AuctionOrder>, early: nat, late: nat)
    requires forall i, j :: 0 <= i < j < |bs| ==> bs[i].createdTime <= bs[j].createdTime
    requires early < |bs| && late < |bs| && bs[early].createdTime < bs[late].createdTime
    ensures early < late
  {
  }

  /** After a round whose borrowers stood by time: where a borrower created earlier ended short,
      one created later was lent nothing by any lender whose rate the first accepts, and so
      nothing at all if its own limit is no higher. */
  lemma EarlierComesFirst(bs: seq<AuctionOrder>, lenders: seq<AuctionOrder>, fills: seq<seq<Detail>>,
                          early: nat, late: nat)
    requires RoundDone(bs, lenders, fills) && FairOrders(bs, lenders)
    requires forall i, j :: 0 <= i < j < |bs| ==> bs[i].createdTime <= bs[j].createdTime
    requires early < |bs| && late < |bs| && bs[early].createdTime < bs[late].createdTime
    requires bs[early].MatchedAmount() < bs[early].amount
    ensures forall l ::
      0 <= l < |fills[late]| && l < |lenders| && lenders[l].interestRate <= bs[early].interestRate ==>
        fills[late][l].matchedAmount == 0
    ensures bs[late].interestRate <= bs[early].interestRate ==> bs[late].MatchedAmount() == 0
  {
    SoonerIsBefore(bs, early, late);
    BorrowerMatched(bs, lenders, fills, early);
    ShortOnes(bs, lenders, early, late);
    forall l | 0 <= l < |fills[late]| && l < |lenders| && lenders[l].interestRate <= bs[early].interestRate
      ensures fills[late][l].matchedAmount == 0
    {
      AmountsOfRecords(bs, lenders, fills, late, l);
    }
    if bs[late].interestRate <= bs[early].interestRate {
      BorrowerMatched(bs, lenders, fills, late);
      NothingForLate(bs, lenders, early, late);
    }
  }

  lemma NothingForLate(bs: seq<AuctionOrder>, lenders: seq<AuctionOrder>, early: nat, late: nat)
    requires FairOrders(bs, lenders) && early < late < |bs| && bs[late].interestRate <= bs[early].interestRate
    requires BorrowerTotal(Outcome(bs, lenders), early) < bs[early].amount
    ensures BorrowerTotal(Outcome(bs, lenders), late) == 0
  {
    ShortOnes(bs, lenders, early, late);
    NothingFromDearer(bs, lenders, late);
    NothingAtAll(Outcome(bs, lenders), late, |lenders|);
  }

  lemma NothingAtAll(values: seq<seq<int>>, b: nat, n: nat)
    requires b < |values| && |values[b]| <= n && forall l :: 0 <= l < n ==> Cell(values, b, l) == 0
    ensures BorrowerTotal(values, b) == 0
  {
    RowSum(values, b, n);
    SumToZero(n, l => Cell(values, b, l));
  }

  lemma ShortOnes(bs: seq<AuctionOrder>, lenders: seq<AuctionOrder>, early: nat, late: nat)
    requires FairOrders(bs, lenders) && early < late < |bs|
    requires BorrowerTotal(Outcome(bs, lenders), early) < bs[early].amount
    ensures forall l :: 0 <= l < |lenders| && lenders[l].interestRate <= bs[early].interestRate ==>
      Cell(Outcome(bs, lenders), late, l) == 0
  {
    FairIsMarket(bs, lenders);
    forall l | 0 <= l < |lenders| && lenders[l].interestRate <= bs[early].interestRate
      ensures Cell(Outcome(bs, lenders), late, l) == 0
    {
      ShortLeavesNothing(Terms(bs), Rates(lenders), Amounts(lenders), early, late, l);
    }
  }

  /** A borrower is lent nothing above its limit. */
  lemma NothingFromDearer(bs: seq<AuctionOrder>, lenders: seq<AuctionOrder>, b: nat)
    requires FairOrders(bs, lenders) && b < |bs|
    ensures |Outcome(bs, lenders)[b]| <= |lenders|
    ensures forall l :: 0 <= l < |lenders| && bs[b].interestRate < lenders[l].interestRate ==>
      Cell(Outcome(bs, lenders), b, l) == 0
  {
    FairIsMarket(bs, lenders);
    forall l | 0 <= l < |lenders| && bs[b].interestRate < lenders[l].interestRate
      ensures Cell(Outcome(bs, lenders), b, l) == 0
    {
      AfterBorrower(Terms(bs), Rates(lenders), Amounts(lenders), b, l);
    }
    BorrowerNotOverfilled(Terms(bs), Rates(lenders), Amounts(lenders), b);
  }

  // ---------- Records ----------

  /** What lender l lent borrower b, as the records say. */
  function Lent(fills: seq<seq<Detail>>, b: int, l: int): int {
    if 0 <= b < |fills| && 0 <= l < |fills[b]| then fills[b][l].matchedAmount else 0
  }

  lemma LentIsCell(bs: seq<AuctionOrder>, lenders: seq<AuctionOrder>, fills: seq<seq<Detail>>, b: int, l: int)
    requires RoundDone(bs, lenders, fills)
    ensures Lent(fills, b, l) == Cell(Outcome(bs, lenders), b, l)
  {
    if 0 <= b < |fills| { assert RecordsOf(fills[b], b, Outcome(bs, lenders)[b], lenders); }
  }

  lemma {:induction false} RowSums(bs: seq<AuctionOrder>, lenders: seq<AuctionOrder>, fills: seq<seq<Detail>>, b: nat,
                                   l: nat)
    requires RoundDone(bs, lenders, fills)
    ensures SumTo(l, i => Lent(fills, b, i)) == SumTo(l, i => Cell(Outcome(bs, lenders), b, i))
    ensures SumTo(b, k => Lent(fills, k, l)) == SumTo(b, k => Cell(Outcome(bs, lenders), k, l))
  {
    forall i ensures Lent(fills, b, i) == Cell(Outcome(bs, lenders), b, i) { LentIsCell(bs, lenders, fills, b, i); }
    forall k ensures Lent(fills, k, l) == Cell(Outcome(bs, lenders), k, l) { LentIsCell(bs, lenders, fills, k, l); }
    SumToSame(l, i => Lent(fills, b, i), i => Cell(Outcome(bs, lenders), b, i));
    SumToSame(b, k => Lent(fills, k, l), k => Cell(Outcome(bs, lenders), k, l));
  }

  /** The records of a finished round, one by one: borrower b lists one of lender l exactly if it
      accepts that rate and the lenders before left it short; the record names the lender, has
      the lesser of what b was short of and what was left of l, and carries the rate of the last
      lender that b lists. */
  lemma {:induction false} EveryRecord(bs: seq<AuctionOrder>, lenders: seq<AuctionOrder>, fills: seq<seq<Detail>>,
                                       b: nat, l: nat)
    requires RoundDone(bs, lenders, fills) && FairOrders(bs, lenders) && b < |bs| && l < |lenders|
    ensures bs[b].matchedDetails == Some(fills[b]) && |fills[b]| <= |lenders|
    ensures var wanted := bs[b].amount - SumTo(l, i => Lent(fills, b, i));
      var left := lenders[l].amount - SumTo(b, k => Lent(fills, k, l));
      && (l < |fills[b]| <==> lenders[l].interestRate <= bs[b].interestRate && wanted > 0)
      && (l < |fills[b]| ==> fills[b][l].id == lenders[l].id
                             && fills[b][l].matchedAmount == (if left <= wanted then left else wanted)
                             && fills[b][l].matchedInterestRate == lenders[|fills[b]| - 1].interestRate)
  {
    assert RecordsOf(fills[b], b, Outcome(bs, lenders)[b], lenders) && Cleared(fills[b], lenders);
    FairIsMarket(bs, lenders);
    EveryCell(Terms(bs), Rates(lenders), Amounts(lenders), b, l);
    RowSums(bs, lenders, fills, b, l);
  }

  // ---------- Returned orders ----------

  lemma {:induction false} MatchedOnesAre(orders: seq<AuctionOrder>, o: AuctionOrder)
    ensures multiset(MatchedOnes(orders))[o] == if o.MatchedAmount() > 0 then multiset(orders)[o] else 0
  {
    if orders != [] {
      var front, last := orders[..|orders| - 1], orders[|orders| - 1];
      MatchedOnesAre(front, o);
      assert orders == front + [last];
      assert multiset(orders) == multiset(front) + multiset{last};
    }
  }

  /** The list that is returned for a side of the market: exactly its orders with a matched
      amount above 0, each as often as it was given, by ascending id. */
  lemma {:induction false} ReturnedExactly(orders: seq<AuctionOrder>, key: AuctionOrder -> int)
    ensures var returned: seq<AuctionOrder> := Sort(MatchedOnes(Sort(orders, key)), IdOf);
      && (forall i, j :: 0 <= i < j < |returned| ==> returned[i].id <= returned[j].id)
      && (forall o: AuctionOrder :: multiset(returned)[o] == if o.MatchedAmount() > 0 then multiset(orders)[o] else 0)
  {
    var matched: seq<AuctionOrder> := MatchedOnes(Sort(orders, key));
    var returned: seq<AuctionOrder> := Sort(matched, IdOf);
    SortIsStable(matched, IdOf);
    SortMultiset(matched, IdOf);
    SortMultiset(orders, key);
    forall i, j | 0 <= i < j < |returned| ensures returned[i].id <= returned[j].id {
      assert IdOf(returned[i]) <= IdOf(returned[j]);
    }
    forall o: AuctionOrder
      ensures multiset(returned)[o] == if o.MatchedAmount() > 0 then multiset(orders)[o] else 0
    {
      MatchedOnesAre(Sort(orders, key), o);
    }
  }

  // ---------- Average rates ----------

  /** rates[0] * amounts[0] + ... */
  function Income(rates: seq<int>, amounts: seq<int>): int
    requires |rates| == |amounts|
  {
    SumTo(|rates|, i => if 0 <= i < |rates| then rates[i] * amounts[i] else 0)
  }

  lemma {:induction false} IncomeMore(rates: seq<int>, amounts: seq<int>)
    requires |rates| == |amounts| && rates != []
    ensures var n := |rates| - 1; Income(rates, amounts) == Income(rates[..n], amounts[..n]) + rates[n] * amounts[n]
  {
    var n := |rates| - 1;
    SumToSame(n, i => if 0 <= i < |rates| then rates[i] * amounts[i] else 0,
              i => if 0 <= i < |rates[..n]| then rates[..n][i] * amounts[..n][i] else 0);
  }

  lemma {:induction false} TotalsOfRecords(details: seq<Detail>, rates: seq<int>, amounts: seq<int>)
    requires |details| == |rates| == |amounts|
    requires forall i :: 0 <= i < |details| ==>
      details[i].matchedInterestRate == rates[i] && details[i].matchedAmount == amounts[i]
    ensures WeightedTotal(details) == Income(rates, amounts) && TotalOf(details) == Sum(amounts)
  {
    if details != [] {
      var n := |details| - 1;
      TotalsOfRecords(details[..n], rates[..n], amounts[..n]);
      IncomeMore(rates, amounts);
    }
  }

  lemma {:induction false} IncomeNonNegative(rates: seq<int>, amounts: seq<int>)
    requires |rates| == |amounts| && NonNegative(rates) && NonNegative(amounts)
    ensures Income(rates, amounts) >= 0
  {
    if rates != [] {
      var n := |rates| - 1;
      IncomeNonNegative(rates[..n], amounts[..n]);
      IncomeMore(rates, amounts);
      MulMonotone(0, rates[n], amounts[n]);
    }
  }

  /** r is the income divided by the total, rounded down. */
  predicate IsAverage(r: int, income: int, total: int) {
    r * total <= income < (r + 1) * total
  }

  /** The rate of an order with records at these rates and amounts is their average weighted by
      amount. */
  lemma {:induction false} AverageIs(order: AuctionOrder, rates: seq<int>, amounts: seq<int>)
    requires var details := Listed(order.matchedDetails);
      |details| == |rates| == |amounts| && forall i :: 0 <= i < |details| ==>
        details[i].matchedInterestRate == rates[i] && details[i].matchedAmount == amounts[i]
    requires NonNegative(rates) && NonNegative(amounts) && Sum(amounts) > 0
    ensures order.MatchedAmount() == Sum(amounts) && order.MatchedInterestRate().Some?
    ensures IsAverage(order.MatchedInterestRate().value, Income(rates, amounts), Sum(amounts))
  {
    TotalsOfRecords(Listed(order.matchedDetails), rates, amounts);
    IncomeNonNegative(rates, amounts);
    Averaged(order, Income(rates, amounts), Sum(amounts));
  }

  lemma Averaged(order: AuctionOrder, income: int, total: int)
    requires order.MatchedAmount() == total > 0 && WeightedTotal(Listed(order.matchedDetails)) == income >= 0
    ensures order.MatchedInterestRate().Some?
    ensures IsAverage(order.MatchedInterestRate().value, income, total)
  {
    QuotientAround(income, total);
  }

  lemma QuotientAround(a: int, b: int)
    requires a >= 0 && b > 0
    ensures TruncDiv(a, b) * b <= a < (TruncDiv(a, b) + 1) * b
  {
    var rest := TruncMod(a, b);
    assert (TruncDiv(a, b) + 1) * b == TruncDiv(a, b) * b + b;
  }

  /** An order that was never matched has no records and the rate 0; one whose records total 0
      has no rate. */
  lemma NoAverage(order: AuctionOrder)
    ensures order.matchedDetails == None ==> order.MatchedAmount() == 0 && order.MatchedInterestRate() == Some(0)
    ensures order.matchedDetails != None && order.MatchedAmount() == 0 ==> order.MatchedInterestRate() == None
  {
  }

  /** The rate at which the matching clears borrower b: that of the last lender visited. */
  function ClearingRate(rates: seq<int>, fills: seq<seq<int>>, b: int): int {
    if 0 <= b < |fills| && 0 < |fills[b]| <= |rates| then rates[|fills[b]| - 1] else 0
  }

  /** What lender l is paid: from every borrower what it lent it, at that borrower's rate. */
  function LenderIncome(rates: seq<int>, fills: seq<seq<int>>, l: int): int {
    SumTo(|fills|, b => ClearingRate(rates, fills, b) * Cell(fills, b, l))
  }

  lemma {:induction false} WeightedRecords(lenders: seq<AuctionOrder>, fills: seq<seq<Detail>>, values: seq<seq<int>>,
                                           l: nat)
    requires Valued(lenders, fills, values) && AllCleared(lenders, fills) && l < |lenders|
    ensures WeightedTotal(RecordsAt(fills, l)) == LenderIncome(Rates(lenders), values, l)
  {
    if fills != [] {
      var n, rates := |fills| - 1, Rates(lenders);
      assert forall b :: 0 <= b < n ==> RecordsOf(fills[..n][b], b, values[..n][b], lenders) by {
        assert forall b :: 0 <= b < n ==> RecordsOf(fills[b], b, values[b], lenders);
      }
      WeightedRecords(lenders, fills[..n], values[..n], l);
      LenderIncomeMore(rates, values, l);
      WeightedMore(RecordsAt(fills[..n], l), fills[n], l);
      LastWeight(lenders, fills, values, l);
    }
  }

  lemma LastWeight(lenders: seq<AuctionOrder>, fills: seq<seq<Detail>>, values: seq<seq<int>>, l: nat)
    requires Valued(lenders, fills, values) && AllCleared(lenders, fills) && l < |lenders| && fills != []
    ensures var last, n := fills[|fills| - 1], |fills| - 1;
      ClearingRate(Rates(lenders), values, n) * Cell(values, n, l)
        == if l < |last| then last[l].matchedInterestRate * last[l].matchedAmount else 0
  {
    var n := |fills| - 1;
    assert RecordsOf(fills[n], n, values[n], lenders) && Cleared(fills[n], lenders);
  }

  lemma {:induction false} LenderIncomeMore(rates: seq<int>, fills: seq<seq<int>>, l: nat)
    requires fills != []
    ensures var n := |fills| - 1;
      LenderIncome(rates, fills, l)
        == LenderIncome(rates, fills[..n], l) + ClearingRate(rates, fills, n) * Cell(fills, n, l)
  {
    var n := |fills| - 1;
    SumToSame(n, b => ClearingRate(rates, fills[..n], b) * Cell(fills[..n], b, l),
              b => ClearingRate(rates, fills, b) * Cell(fills, b, l));
  }

  lemma {:induction false} WeightedMore(records: seq<Detail>, last: seq<Detail>, l: nat)
    ensures WeightedTotal(records + if l < |last| then [last[l]] else [])
         == WeightedTotal(records) + if l < |last| then last[l].matchedInterestRate * last[l].matchedAmount else 0
  {
    if l < |last| {
      assert (records + [last[l]])[..|records|] == records;
    } else {
      assert records + [] == records;
    }
  }

  /** After a round a lender's rate is what it is paid divided by what it lent, rounded down. */
  lemma LenderAverageIs(bs: seq<AuctionOrder>, lenders: seq<AuctionOrder>, fills: seq<seq<Detail>>, l: nat)
    requires RoundDone(bs, lenders, fills) && FairOrders(bs, lenders) && l < |lenders|
    requires (forall i :: 0 <= i < |lenders| ==> lenders[i].interestRate >= 0) && lenders[l].MatchedAmount() > 0
    ensures var values := Outcome(bs, lenders);
      var total, income := LenderTotal(values, l), LenderIncome(Rates(lenders), values, l);
      && lenders[l].MatchedAmount() == total && lenders[l].MatchedInterestRate().Some?
      && IsAverage(lenders[l].MatchedInterestRate().value, income, total)
  {
    var values := Outcome(bs, lenders);
    LenderMatched(bs, lenders, fills, l);
    WeightedRecords(lenders, fills, values, l);
    assert Listed(ListOf(RecordsAt(fills, l))) == RecordsAt(fills, l);
    LenderIncomeNonNegative(bs, lenders, l);
    Averaged(lenders[l], LenderIncome(Rates(lenders), values, l), LenderTotal(values, l));
  }

  lemma LenderIncomeNonNegative(bs: seq<AuctionOrder>, lenders: seq<AuctionOrder>, l: nat)
    requires FairOrders(bs, lenders) && forall i :: 0 <= i < |lenders| ==> lenders[i].interestRate >= 0
    ensures LenderIncome(Rates(lenders), Outcome(bs, lenders), l) >= 0
  {
    var rates, values := Rates(lenders), Outcome(bs, lenders);
    FairIsMarket(bs, lenders);
    forall b | 0 <= b < |values| ensures ClearingRate(rates, values, b) * Cell(values, b, l) >= 0 {
      BorrowerNotOverfilled(Terms(bs), rates, Amounts(lenders), b);
      MulMonotone(0, ClearingRate(rates, values, b), Cell(values, b, l));
    }
    SumToMonotone(|values|, _ => 0, b => ClearingRate(rates, values, b) * Cell(values, b, l));
    SumToZero(|values|, _ => 0);
  }
}
