/** What a finished matching round guarantees about the order objects themselves. */
module AuctionGuarantees {
  import opened Wrappers
  import opened Sums
  import opened StableSort
  import opened AuctionMatching
  import opened AuctionOptimality
  import opened AuctionEngine
  import opened JsBigInt

  /** Orders of the kinds the engine is given: no negative amounts, lenders by ascending rate. */
  ghost predicate FairOrders(bs: seq<AuctionOrder>, lenders: seq<AuctionOrder>) {
    && Sorted(lenders, RateOf)
    && (forall b :: 0 <= b < |bs| ==> 0 <= bs[b].amount)
    && (forall l :: 0 <= l < |lenders| ==> 0 <= lenders[l].amount)
  }

  lemma FairIsMarket(bs: seq<AuctionOrder>, lenders: seq<AuctionOrder>)
    requires FairOrders(bs, lenders)
    ensures Market(Terms(bs), Rates(lenders), Amounts(lenders))
  {
    forall i, j | 0 <= i < j < |lenders|
      ensures Rates(lenders)[i] <= Rates(lenders)[j]
    {
      assert RateOf(lenders[i]) <= RateOf(lenders[j]);
    }
  }

  /** What the matching on values gives to each borrower. */
  function Outcome(bs: seq<AuctionOrder>, lenders: seq<AuctionOrder>): seq<seq<int>> {
    Match(Terms(bs), Rates(lenders), Amounts(lenders))
  }

  lemma {:induction false} TotalOfRecords(made: seq<Detail>, amounts: seq<int>)
    requires |made| == |amounts| && forall i :: 0 <= i < |made| ==> made[i].matchedAmount == amounts[i]
    ensures TotalOf(made) == Sum(amounts)
  {
    if made != [] {
      TotalOfRecords(made[..|made| - 1], amounts[..|made| - 1]);
    }
  }

  /** An order's matched amount is what the matching on values gave it. */
  lemma BorrowerMatched(bs: seq<AuctionOrder>, lenders: seq<AuctionOrder>, fills: seq<seq<Detail>>, b: nat)
    requires RoundDone(bs, lenders, fills) && b < |bs|
    ensures bs[b].MatchedAmount() == BorrowerTotal(Outcome(bs, lenders), b)
  {
    assert RecordsOf(fills[b], b, Outcome(bs, lenders)[b], lenders);
    TotalOfRecords(fills[b], Outcome(bs, lenders)[b]);
  }

  lemma LenderMatched(bs: seq<AuctionOrder>, lenders: seq<AuctionOrder>, fills: seq<seq<Detail>>, l: nat)
    requires RoundDone(bs, lenders, fills) && l < |lenders|
    ensures lenders[l].MatchedAmount() == LenderTotal(Outcome(bs, lenders), l)
  {
    RecordedTotal(lenders, fills, Outcome(bs, lenders), l);
    assert Listed(ListOf(RecordsAt(fills, l))) == RecordsAt(fills, l);
  }

  /** No order is filled beyond its amount or below zero. */
  lemma NoOrderOverfilled(bs: seq<AuctionOrder>, lenders: seq<AuctionOrder>, fills: seq<seq<Detail>>)
    requires RoundDone(bs, lenders, fills) && FairOrders(bs, lenders)
    ensures forall b :: 0 <= b < |bs| ==> 0 <= bs[b].MatchedAmount() <= bs[b].amount
    ensures forall l :: 0 <= l < |lenders| ==> 0 <= lenders[l].MatchedAmount() <= lenders[l].amount
  {
    FairIsMarket(bs, lenders);
    forall b | 0 <= b < |bs| ensures 0 <= bs[b].MatchedAmount() <= bs[b].amount {
      BorrowerMatched(bs, lenders, fills, b);
      BorrowerNotOverfilled(Terms(bs), Rates(lenders), Amounts(lenders), b);
    }
    forall l | 0 <= l < |lenders| ensures 0 <= lenders[l].MatchedAmount() <= lenders[l].amount {
      LenderMatched(bs, lenders, fills, l);
      LenderNotOverfilled(Terms(bs), Rates(lenders), Amounts(lenders), l);
    }
  }

  function TotalMatched(orders: seq<AuctionOrder>): int
    reads orders
  {
    if orders == [] then 0
    else TotalMatched(orders[..|orders| - 1]) + orders[|orders| - 1].MatchedAmount()
  }

  lemma {:induction false} TotalMatchedIs(orders: seq<AuctionOrder>, f: int -> int)
    requires forall i :: 0 <= i < |orders| ==> orders[i].MatchedAmount() == f(i)
    ensures TotalMatched(orders) == SumTo(|orders|, f)
  {
    if orders != [] {
      TotalMatchedIs(orders[..|orders| - 1], f);
    }
  }

  /** What all borrowers got equals what all lenders gave, and is the volume of the matching
      on values. */
  lemma {:induction false} RoundConserves(bs: seq<AuctionOrder>, lenders: seq<AuctionOrder>, fills: seq<seq<Detail>>)
    requires RoundDone(bs, lenders, fills) && FairOrders(bs, lenders)
    ensures TotalMatched(bs) == TotalMatched(lenders) == Volume(Outcome(bs, lenders))
  {
    FairIsMarket(bs, lenders);
    var values := Outcome(bs, lenders);
    forall b | 0 <= b < |bs| ensures bs[b].MatchedAmount() == BorrowerTotal(values, b) {
      BorrowerMatched(bs, lenders, fills, b);
    }
    forall l | 0 <= l < |lenders| ensures lenders[l].MatchedAmount() == LenderTotal(values, l) {
      LenderMatched(bs, lenders, fills, l);
    }
    TotalMatchedIs(bs, b => BorrowerTotal(values, b));
    TotalMatchedIs(lenders, l => LenderTotal(values, l));
    Conserves(Terms(bs), Rates(lenders), Amounts(lenders));
  }

  /** What the order objects were matched for in all is at least half of what any plan for them
      lends that respects their rates and amounts. */
  lemma {:induction false} RoundLendsHalfOfAnyPlan(bs: seq<AuctionOrder>, lenders: seq<AuctionOrder>,
                                                   fills: seq<seq<Detail>>, x: (int, int) -> int)
    requires RoundDone(bs, lenders, fills) && FairOrders(bs, lenders)
    requires Feasible(x, Terms(bs), Rates(lenders), Amounts(lenders))
    ensures PlanVolume(x, |bs|, |lenders|) <= 2 * TotalMatched(bs) == 2 * TotalMatched(lenders)
  {
    FairIsMarket(bs, lenders);
    RoundConserves(bs, lenders, fills);
    AtLeastHalfOfAnyPlan(x, Terms(bs), Rates(lenders), Amounts(lenders));
  }

  /** The record at seat l of turn b, if there is one. */
  lemma {:induction false} RecordsAtSeat(lenders: seq<AuctionOrder>, fills: seq<seq<Detail>>, values: seq<seq<int>>,
                                         l: nat)
    requires Valued(lenders, fills, values)
    ensures forall d :: d in RecordsAt(fills, l) <==> exists b :: 0 <= b < |fills| && l < |fills[b]| && d == fills[b][l]
  {
    if fills != [] {
      var n := |fills| - 1;
      RecordsAtSeat(lenders, fills[..n], values[..n], l);
    }
  }

  /** A lender's records are by different borrowers, in the order in which these were served. */
  lemma {:induction false} RecordsAtRise(lenders: seq<AuctionOrder>, fills: seq<seq<Detail>>, values: seq<seq<int>>,
                                         l: nat)
    requires Valued(lenders, fills, values)
    ensures forall i :: 0 <= i < |RecordsAt(fills, l)| ==> RecordsAt(fills, l)[i].turn < |fills|
    ensures forall i, j ::
      0 <= i < j < |RecordsAt(fills, l)| ==> RecordsAt(fills, l)[i].turn < RecordsAt(fills, l)[j].turn
  {
    if fills != [] {
      var n := |fills| - 1;
      assert forall b :: 0 <= b < n ==> RecordsOf(fills[..n][b], b, values[..n][b], lenders) by {
        assert forall b :: 0 <= b < n ==> RecordsOf(fills[b], b, values[b], lenders);
      }
      RecordsAtRise(lenders, fills[..n], values[..n], l);
      assert RecordsOf(fills[n], n, values[n], lenders);
    }
  }

  /** Each record is one object on exactly two lists: that of the borrower that made it and
      that of the lender it was made at. */
  lemma RecordOnExactlyTwoLists(bs: seq<AuctionOrder>, lenders: seq<AuctionOrder>, fills: seq<seq<Detail>>, b: nat,
                                l: nat)
    requires RoundDone(bs, lenders, fills)
    requires b < |bs| && l < |fills[b]|
    ensures l < |lenders|
    ensures forall b' :: 0 <= b' < |bs| ==> (fills[b][l] in Listed(bs[b'].matchedDetails) <==> b' == b)
    ensures forall l' :: 0 <= l' < |lenders| ==> (fills[b][l] in Listed(lenders[l'].matchedDetails) <==> l' == l)
    ensures forall i :: 0 <= i < |fills[b]| && fills[b][i] == fills[b][l] ==> i == l
    ensures var list := Listed(lenders[l].matchedDetails);
      forall i, j :: 0 <= i < j < |list| ==> list[i] != list[j]
  {
    var values := Outcome(bs, lenders);
    RecordsAtRise(lenders, fills, values, l);
    assert RecordsOf(fills[b], b, values[b], lenders);
    forall b' | 0 <= b' < |bs|
      ensures fills[b][l] in Listed(bs[b'].matchedDetails) <==> b' == b
    {
      assert RecordsOf(fills[b'], b', values[b'], lenders);
    }
    forall l' | 0 <= l' < |lenders|
      ensures fills[b][l] in Listed(lenders[l'].matchedDetails) <==> l' == l
    {
      RecordsAtSeat(lenders, fills, values, l');
      assert Listed(ListOf(RecordsAt(fills, l'))) == RecordsAt(fills, l');
      if fills[b][l] in RecordsAt(fills, l') {
        var b' :| 0 <= b' < |fills| && l' < |fills[b']| && fills[b][l] == fills[b'][l'];
        assert RecordsOf(fills[b'], b', values[b'], lenders);
      }
    }
  }

  lemma {:induction false} WeightedUniform(details: seq<Detail>, rate: int)
    requires forall i :: 0 <= i < |details| ==> details[i].matchedInterestRate == rate
    ensures WeightedTotal(details) == rate * TotalOf(details)
  {
    if details != [] {
      WeightedUniform(details[..|details| - 1], rate);
    }
  }

  lemma {:induction false} WeightedAtLeast(details: seq<Detail>, rate: int)
    requires forall i :: 0 <= i < |details| ==> rate <= details[i].matchedInterestRate && 0 <= details[i].matchedAmount
    ensures WeightedTotal(details) >= rate * TotalOf(details)
    ensures TotalOf(details) >= 0
  {
    if details != [] {
      var front, last := details[..|details| - 1], details[|details| - 1];
      WeightedAtLeast(front, rate);
      MulMonotone(rate, last.matchedInterestRate, last.matchedAmount);
      assert rate * TotalOf(details) == rate * TotalOf(front) + rate * last.matchedAmount;
    }
  }

  /** An order all of whose records carry one rate averages exactly that rate. */
  lemma UniformAverage(order: AuctionOrder, rate: int)
    requires order.MatchedAmount() > 0
    requires forall i ::
      0 <= i < |Listed(order.matchedDetails)| ==> Listed(order.matchedDetails)[i].matchedInterestRate == rate
    ensures order.MatchedInterestRate() == Some(rate)
  {
    WeightedUniform(Listed(order.matchedDetails), rate);
    TruncDivExact(rate, order.MatchedAmount());
  }

  /** The last lender a borrower visited is within its limit and the dearest of those visited. */
  lemma LastVisitedIsDearest(bs: seq<AuctionOrder>, lenders: seq<AuctionOrder>, b: nat)
    requires FairOrders(bs, lenders) && b < |bs|
    ensures var n := |Outcome(bs, lenders)[b]|;
      && n <= |lenders|
      && (n > 0 ==> lenders[n - 1].interestRate <= bs[b].interestRate)
      && forall l :: 0 <= l < n ==> lenders[l].interestRate <= lenders[n - 1].interestRate
  {
    FairIsMarket(bs, lenders);
    BorrowerNotOverfilled(Terms(bs), Rates(lenders), Amounts(lenders), b);
    var n := |Outcome(bs, lenders)[b]|;
    if n > 0 {
      AfterBorrower(Terms(bs), Rates(lenders), Amounts(lenders), b, n - 1);
      forall l | 0 <= l < n ensures lenders[l].interestRate <= lenders[n - 1].interestRate {
        assert RateOf(lenders[l]) <= RateOf(lenders[n - 1]);
      }
    }
  }

  /** A borrower that got something pays on average exactly one rate: that of the dearest
      lender it visited, even if that one had nothing left to give. It is never above the
      borrower's limit nor below the rate of a lender the borrower visited. */
  lemma BorrowerPaysClearingRate(bs: seq<AuctionOrder>, lenders: seq<AuctionOrder>, fills: seq<seq<Detail>>, b: nat)
    requires RoundDone(bs, lenders, fills) && FairOrders(bs, lenders) && b < |bs|
    requires bs[b].MatchedAmount() > 0
    ensures 0 < |fills[b]| <= |lenders|
    ensures var rate := lenders[|fills[b]| - 1].interestRate;
      && bs[b].MatchedInterestRate() == Some(rate) && rate <= bs[b].interestRate
      && forall l :: 0 <= l < |fills[b]| ==> lenders[l].interestRate <= rate && fills[b][l].matchedInterestRate == rate
  {
    assert RecordsOf(fills[b], b, Outcome(bs, lenders)[b], lenders);
    assert |fills[b]| <= |lenders| && Cleared(fills[b], lenders);
    assert fills[b] != [];
    LastVisitedIsDearest(bs, lenders, b);
    UniformAverage(bs[b], lenders[|fills[b]| - 1].interestRate);
  }

  /** An order none of whose records is below a rate averages at least that rate. */
  lemma AverageAtLeast(order: AuctionOrder, rate: int)
    requires order.MatchedAmount() > 0
    requires forall i :: 0 <= i < |Listed(order.matchedDetails)| ==>
      rate <= Listed(order.matchedDetails)[i].matchedInterestRate && 0 <= Listed(order.matchedDetails)[i].matchedAmount
    ensures order.MatchedInterestRate().Some? && order.MatchedInterestRate().value >= rate
  {
    WeightedAtLeast(Listed(order.matchedDetails), rate);
    TruncDivAtLeast(WeightedTotal(Listed(order.matchedDetails)), order.MatchedAmount(), rate);
  }

  /** A record on a lender's list carries at least the lender's rate, for no negative amount. */
  lemma RecordAtLeastAsk(bs: seq<AuctionOrder>, lenders: seq<AuctionOrder>, fills: seq<seq<Detail>>, b: nat, l: nat)
    requires RoundDone(bs, lenders, fills) && FairOrders(bs, lenders)
    requires b < |fills| && l < |fills[b]|
    ensures l < |lenders|
    ensures lenders[l].interestRate <= fills[b][l].matchedInterestRate && 0 <= fills[b][l].matchedAmount
  {
    assert RecordsOf(fills[b], b, Outcome(bs, lenders)[b], lenders) && Cleared(fills[b], lenders);
    LastVisitedIsDearest(bs, lenders, b);
    FairIsMarket(bs, lenders);
    BorrowerNotOverfilled(Terms(bs), Rates(lenders), Amounts(lenders), b);
  }

  /** A lender that gave something earns on average at least the rate it asked. */
  lemma LenderEarnsItsAsk(bs: seq<AuctionOrder>, lenders: seq<AuctionOrder>, fills: seq<seq<Detail>>, l: nat)
    requires RoundDone(bs, lenders, fills) && FairOrders(bs, lenders) && l < |lenders|
    requires lenders[l].MatchedAmount() > 0
    ensures lenders[l].MatchedInterestRate().Some?
    ensures lenders[l].MatchedInterestRate().value >= lenders[l].interestRate
  {
    RecordsAtSeat(lenders, fills, Outcome(bs, lenders), l);
    var records := RecordsAt(fills, l);
    assert Listed(lenders[l].matchedDetails) == records;
    forall i | 0 <= i < |records|
      ensures lenders[l].interestRate <= records[i].matchedInterestRate && 0 <= records[i].matchedAmount
    {
      assert records[i] in records;
      var b :| 0 <= b < |fills| && l < |fills[b]| && records[i] == fills[b][l];
      RecordAtLeastAsk(bs, lenders, fills, b, l);
    }
    AverageAtLeast(lenders[l], lenders[l].interestRate);
  }
}
